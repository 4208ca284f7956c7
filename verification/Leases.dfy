/** Leases over whole runs: who was told they hold a step, until when, and how a step changes hands. */
module Leases {
  import opened Prelude
  import opened JsonValue
  import opened Domain
  import opened Tables
  import opened Operations
  import opened Candidates
  import opened Invariant
  import opened Preservation
  import opened Sweeping
  import opened Runs

  datatype Lease = Lease(workerId: string, until: Time)

  /** The lease a row stands for, if it is running under one. */
  function LeaseOn(r: StepExecution): Option<Lease> {
    if r.status.Running? && r.workerId.Some? && r.leaseExpiresAt.Some?
    then Some(Lease(r.workerId.value, r.leaseExpiresAt.value)) else None
  }

  function LeaseAt(s: Store, k: StepKey): Option<Lease> {
    if k in s.steps then LeaseOn(s.steps[k]) else None
  }

  /* ---- what callers are told ---- */

  /** The lease a poll's returned list gives its caller on a step. */
  function ClaimIn(claimed: seq<StepExecution>, k: StepKey): Option<Lease> {
    if claimed == [] then None
    else if KeyOfStep(claimed[|claimed| - 1]) == k then LeaseOn(claimed[|claimed| - 1])
    else ClaimIn(claimed[..|claimed| - 1], k)
  }

  /** The lease on a step that a call's return value gives its caller. */
  ghost function Granted(rule: LeaseRule, s: Store, c: Call, k: StepKey): Option<Lease>
    requires Keyed(s)
  {
    match c
    case PollCall(now, name, version, workerId, max) =>
      var o := Poll(rule, s, now, name, version, workerId, max);
      if o.Done? then ClaimIn(o.value, k) else None
    case KeepAliveCall(clock, id, stepName, workerId) =>
      var o := KeepAlive(rule, s, clock, id, stepName, workerId);
      if o.Done? && KeyOfStep(o.value) == k then LeaseOn(o.value) else None
    case _ => None
  }

  /** The call puts a row under the key that is no longer running. */
  ghost predicate Closes(rule: LeaseRule, s: Store, c: Call, k: StepKey)
    requires Keyed(s)
  {
    var w := Effect(rule, s, c);
    w.Some? && k in w.value.steps && !w.value.steps[k].status.Running?
  }

  /** The lease last granted on a step in the first `i` calls and not ended since. */
  ghost function LastGranted(rule: LeaseRule, states: seq<Store>, calls: seq<Call>, i: nat, k: StepKey): Option<Lease>
    requires Run(rule, states, calls) && i <= |calls|
  {
    if i == 0 then None
    else
      assert Next(rule, states[i - 1], calls[i - 1], states[i]);
      if Granted(rule, states[i - 1], calls[i - 1], k).Some? then Granted(rule, states[i - 1], calls[i - 1], k)
      else if Closes(rule, states[i - 1], calls[i - 1], k) then None
      else LastGranted(rule, states, calls, i - 1, k)
  }

  lemma {:induction false} ClaimsWritten(s: Store, claimed: seq<StepExecution>, k: StepKey)
    requires forall i :: 0 <= i < |claimed| ==> LeaseOn(claimed[i]).Some?
    ensures LeaseAt(PutSteps(s, claimed), k) == if ClaimIn(claimed, k).Some? then ClaimIn(claimed, k) else LeaseAt(s, k)
  {
    if claimed != [] {
      ClaimsWritten(s, claimed[..|claimed| - 1], k);
    }
  }

  lemma {:induction false} ClaimsRunning(s: Store, claimed: seq<StepExecution>, k: StepKey)
    requires forall i :: 0 <= i < |claimed| ==> claimed[i].status.Running?
    requires k in PutSteps(s, claimed).steps && k !in s.steps
    ensures PutSteps(s, claimed).steps[k].status.Running?
  {
    if claimed != [] && KeyOfStep(claimed[|claimed| - 1]) != k {
      ClaimsRunning(s, claimed[..|claimed| - 1], k);
    }
  }

  lemma PollGrants(rule: LeaseRule, s: Store, now: Time, name: string, version: int, workerId: string, max: nat, k: StepKey)
    requires Inv(s) && Poll(rule, s, now, name, version, workerId, max).Done?
    ensures var o := Poll(rule, s, now, name, version, workerId, max);
            && LeaseAt(Apply(s, o.writes), k) == (if ClaimIn(o.value, k).Some? then ClaimIn(o.value, k) else LeaseAt(s, k))
            && (k in o.writes.steps ==> o.writes.steps[k].status.Running?)
  {
    var o := Poll(rule, s, now, name, version, workerId, max);
    PollWritesApply(rule, s, now, name, version, workerId, max);
    PolledUnderLease(rule, s, now, name, version, workerId, max);
    ClaimsWritten(s, o.value, k);
    if k in o.writes.steps {
      ClaimsRunning(EMPTY, o.value, k);
    }
  }

  lemma PolledUnderLease(rule: LeaseRule, s: Store, now: Time, name: string, version: int, workerId: string, max: nat)
    requires Keyed(s) && Poll(rule, s, now, name, version, workerId, max).Done?
    ensures var claimed := Poll(rule, s, now, name, version, workerId, max).value;
            forall i :: 0 <= i < |claimed| ==> claimed[i].status.Running? && LeaseOn(claimed[i]).Some?
  {
  }

  /** Nothing but polls and keep-alives writes a running row. */
  ghost predicate NoRunning(w: Store, k: StepKey) {
    k in w.steps ==> !w.steps[k].status.Running?
  }

  lemma OthersWriteNoRunning(rule: LeaseRule, s: Store, c: Call, k: StepKey)
    requires Inv(s) && Allowed(s, c) && Effect(rule, s, c).Some? && !c.PollCall? && !c.KeepAliveCall?
    ensures NoRunning(Effect(rule, s, c).value, k)
  {
    match c
    case SweepCall(now, created, rows) => SweepWritesNoRunning(s, now, created, rows, k);
    case _ =>
  }

  lemma SweepWritesNoRunning(s: Store, now: Time, created: map<string, Time>, rows: seq<StepExecution>, k: StepKey)
    requires Inv(s) && Enumerates(rows, Select(s, ByStatus(StepStatus.Running))) && Sweep(s, now, created, rows).Done?
    ensures NoRunning(Sweep(s, now, created, rows).writes, k)
  {
    SweepIsPlan(s, now, created, rows);
    var plan := PlanFor(s, now, created, DueIds(s, now));
    if k.executionId in plan {
      SettleWritesNoRunning(s, now, created, k.executionId, k);
    }
    PlanWritesNoRunning(plan, Sweep(s, now, created, rows).writes, k);
  }

  lemma SettleWritesNoRunning(s: Store, now: Time, created: map<string, Time>, id: string, k: StepKey)
    requires Due(s, now, id) && DueRetries(s, id).Some?
    ensures NoRunning(SettleDue(s, now, created, id).writes, k)
  {
  }

  lemma PlanWritesNoRunning(plan: Plan, w: Store, k: StepKey)
    requires CarriesOut(plan, w) && (k.executionId in plan ==> NoRunning(plan[k.executionId].writes, k))
    ensures NoRunning(w, k)
  {
  }

  lemma CallGrants(rule: LeaseRule, s: Store, c: Call, k: StepKey)
    requires Inv(s) && Allowed(s, c)
    ensures LeaseAt(After(rule, s, c), k)
         == if Granted(rule, s, c, k).Some? then Granted(rule, s, c, k)
            else if Closes(rule, s, c, k) then None
            else LeaseAt(s, k)
  {
    if Effect(rule, s, c).Some? {
      match c
      case PollCall(now, name, version, workerId, max) => PollGrants(rule, s, now, name, version, workerId, max, k);
      case KeepAliveCall(clock, id, stepName, workerId) => KeepAliveGrants(rule, s, clock, id, stepName, workerId, k);
      case _ => OthersGrantNothing(rule, s, c, k);
    }
  }

  lemma OthersGrantNothing(rule: LeaseRule, s: Store, c: Call, k: StepKey)
    requires Inv(s) && Allowed(s, c) && Effect(rule, s, c).Some? && !c.PollCall? && !c.KeepAliveCall?
    ensures LeaseAt(After(rule, s, c), k) == if Closes(rule, s, c, k) then None else LeaseAt(s, k)
  {
    OthersWriteNoRunning(rule, s, c, k);
  }

  lemma KeepAliveGrants(rule: LeaseRule, s: Store, clock: Clock, id: string, stepName: string, workerId: string, k: StepKey)
    requires Inv(s) && KeepAlive(rule, s, clock, id, stepName, workerId).Done?
    ensures var o := KeepAlive(rule, s, clock, id, stepName, workerId);
            && LeaseOn(o.value).Some?
            && LeaseAt(Apply(s, o.writes), k) == (if KeyOfStep(o.value) == k then LeaseOn(o.value) else LeaseAt(s, k))
            && (k in o.writes.steps <==> k == KeyOfStep(o.value))
  {
    OwnedIsCurrent(s, id, stepName, workerId, clock.checked);
    ApplyStep(s, KeepAlive(rule, s, clock, id, stepName, workerId).value);
  }

  /** In every run from empty tables, the lease a step row carries is the one last granted on it: what
      callers have been told and what the table says never come apart. */
  lemma {:induction false} RunGrants(rule: LeaseRule, states: seq<Store>, calls: seq<Call>, i: nat, k: StepKey)
    requires Run(rule, states, calls) && states[0] == EMPTY && i <= |calls|
    ensures LastGranted(rule, states, calls, i, k) == LeaseAt(states[i], k)
  {
    if i > 0 {
      RunGrants(rule, states, calls, i - 1, k);
      NextGrants(rule, states, calls, i - 1, k);
    }
  }

  lemma NextGrants(rule: LeaseRule, states: seq<Store>, calls: seq<Call>, i: nat, k: StepKey)
    requires Run(rule, states, calls) && i < |calls| && LastGranted(rule, states, calls, i, k) == LeaseAt(states[i], k)
    ensures LastGranted(rule, states, calls, i + 1, k) == LeaseAt(states[i + 1], k)
  {
    GrantsAt(rule, states, calls, i, k);
    GrantedStep(rule, states, calls, i, k);
  }

  lemma GrantsAt(rule: LeaseRule, states: seq<Store>, calls: seq<Call>, i: nat, k: StepKey)
    requires Run(rule, states, calls) && i < |calls|
    ensures Keyed(states[i])
    ensures LeaseAt(states[i + 1], k)
         == if Granted(rule, states[i], calls[i], k).Some? then Granted(rule, states[i], calls[i], k)
            else if Closes(rule, states[i], calls[i], k) then None
            else LeaseAt(states[i], k)
  {
    RunKeeps(rule, states, calls, i);
    assert Next(rule, states[i], calls[i], states[i + 1]);
    CallGrants(rule, states[i], calls[i], k);
  }

  lemma GrantedStep(rule: LeaseRule, states: seq<Store>, calls: seq<Call>, i: nat, k: StepKey)
    requires Run(rule, states, calls) && i < |calls| && Keyed(states[i])
    ensures LastGranted(rule, states, calls, i + 1, k)
         == if Granted(rule, states[i], calls[i], k).Some? then Granted(rule, states[i], calls[i], k)
            else if Closes(rule, states[i], calls[i], k) then None
            else LastGranted(rule, states, calls, i, k)
  {
  }

  /* ---- how a lease can change ---- */

  /** What one call may do to the lease on one step. */
  ghost predicate LeaseStep(c: Call, before: Option<Lease>, after: Option<Lease>) {
    || after == before
    || match c
       case PollCall(now, _, _, workerId, _) =>
         (before.Some? ==> before.value.until <= now) && after.Some? && after.value.workerId == workerId && now <= after.value.until
       case KeepAliveCall(clock, _, _, workerId) =>
         before.Some? && before.value.workerId == workerId && clock.checked < before.value.until
         && after.Some? && after.value.workerId == workerId && clock.stored <= after.value.until
       case CompleteCall(clock, _, _, workerId, _, _, _) =>
         before.Some? && before.value.workerId == workerId && clock.checked < before.value.until && after.None?
       case FailCall(clock, _, _, workerId, _) =>
         before.Some? && before.value.workerId == workerId && clock.checked < before.value.until && after.None?
       case CancelCall(_, _) => after.None?
       case SweepCall(now, _, _) => before.Some? && before.value.until <= now && after.None?
       case _ => false
  }

  lemma CallMovesLease(rule: LeaseRule, s: Store, c: Call, k: StepKey)
    requires Inv(s) && Allowed(s, c)
    ensures LeaseStep(c, LeaseAt(s, k), LeaseAt(After(rule, s, c), k))
  {
    if k.executionId in s.executions {
      CallChanges(rule, s, c, k.executionId);
      ChangeMovesLease(rule, s, c, After(rule, s, c), k);
    } else {
      CallGrants(rule, s, c, k);
      assert k in s.steps ==> StepOk(s, s.steps[k]);
      NoExecutionNoLease(rule, s, c, k);
    }
  }

  lemma NoExecutionNoLease(rule: LeaseRule, s: Store, c: Call, k: StepKey)
    requires Inv(s) && Allowed(s, c) && k.executionId !in s.executions
    ensures LeaseAt(After(rule, s, c), k) == None
  {
    assert k in s.steps ==> StepOk(s, s.steps[k]);
    CallKeeps(rule, s, c);
    CallAdds(rule, s, c);
    var t := After(rule, s, c);
    if k in t.steps {
      assert StepOk(t, t.steps[k]);
      CallGrants(rule, s, c, k);
    }
  }

  /** The rows an execution is left with, from what `SameRows` says of them. */
  lemma RowLease(s: Store, t: Store, k: StepKey)
    requires SameRows(s, t, k.executionId)
    ensures LeaseAt(t, k) == LeaseAt(s, k)
  {
    assert Lookup(s.steps, k) == Lookup(t.steps, k);
  }

  lemma WorkedLease(s: Store, t: Store, k: StepKey, r: StepExecution)
    requires Worked(s, t, k.executionId, r)
    ensures LeaseAt(t, k) == if k == CurrentKey(s.executions[k.executionId]) then LeaseOn(r) else LeaseAt(s, k)
  {
    RowLease(PutStep(s, r), t, k);
  }

  /** Closing the current row ends its lease and no other. */
  lemma ClosedLease(s: Store, t: Store, k: StepKey, r: StepExecution, e: Execution)
    requires Over(s, t, k.executionId, r, e)
    ensures LeaseAt(t, k) == if k == CurrentKey(s.executions[k.executionId]) then None else LeaseAt(s, k)
  {
    RowLease(PutStep(s, r), t, k);
  }

  lemma MovedLease(s: Store, t: Store, k: StepKey, r: StepExecution, e: Execution, next: StepExecution)
    requires Moved(s, t, k.executionId, r, e, next)
    ensures LeaseAt(t, k) == if k == CurrentKey(s.executions[k.executionId]) || k == KeyOfStep(next) then None else LeaseAt(s, k)
  {
    RowLease(PutStep(PutStep(s, r), next), t, k);
  }

  /** Only the current step of a running execution is under a lease. */
  lemma LeaseIsCurrent(s: Store, k: StepKey)
    requires Inv(s) && LeaseAt(s, k).Some?
    ensures k.executionId in s.executions && s.executions[k.executionId].status.Running?
    ensures k == CurrentKey(s.executions[k.executionId])
  {
    assert StepOk(s, s.steps[k]);
  }

  lemma FailedLease(s: Store, t: Store, k: StepKey, reason: string, clock: Clock)
    requires Inv(s) && FailedOnce(s, t, k.executionId, reason, clock)
    ensures LeaseAt(t, k) == None
  {
    var id := k.executionId;
    if LeaseAt(s, k).Some? {
      LeaseIsCurrent(s, k);
    }
    var r := FailedRow(Current(s, id), reason, clock.stored);
    FailedOnceShape(s, t, id, reason, clock, r);
    if t.executions[id].status.Running? {
      MovedLease(s, t, k, r, t.executions[id], t.steps[CurrentKey(t.executions[id])]);
    } else {
      ClosedLease(s, t, k, r, t.executions[id]);
    }
  }

  lemma CompletedLease(s: Store, t: Store, k: StepKey, clock: Clock, stepName: string, workerId: string, output: Json, decision: NextStepDecision)
    requires Inv(s) && CompletedBy(s, t, k.executionId, clock, stepName, workerId, output, decision)
    ensures LeaseAt(t, k) == None
  {
    var id := k.executionId;
    var claim := Owned(s, id, stepName, workerId, clock.checked).value;
    var r := CompletedRow(claim.row, output, clock.stored);
    if LeaseAt(s, k).Some? {
      LeaseIsCurrent(s, k);
    }
    if decision.workflowComplete {
      ClosedLease(s, t, k, r, t.executions[id]);
    } else {
      MovedLease(s, t, k, r, t.executions[id], t.steps[CurrentKey(t.executions[id])]);
    }
  }

  lemma CanceledLease(s: Store, t: Store, k: StepKey, now: Time)
    requires Inv(s) && CanceledBy(s, t, k.executionId, now)
    ensures LeaseAt(t, k) == None
  {
    if LeaseAt(s, k).Some? {
      LeaseIsCurrent(s, k);
    }
    ClosedLease(s, t, k, CanceledRow(Current(s, k.executionId), now), t.executions[k.executionId]);
  }

  /** A claim check that passes is on the lease of the current step. */
  lemma OwnerHolds(s: Store, id: string, stepName: string, workerId: string, now: Time)
    requires Inv(s) && Owned(s, id, stepName, workerId, now).Some?
    ensures var e := s.executions[id];
            && LeaseAt(s, CurrentKey(e)).Some? && LeaseAt(s, CurrentKey(e)).value.workerId == workerId
            && now < LeaseAt(s, CurrentKey(e)).value.until
  {
    OwnedIsCurrent(s, id, stepName, workerId, now);
  }

  lemma ClaimedLease(rule: LeaseRule, s: Store, t: Store, k: StepKey, now: Time, key: DefinitionKey, workerId: string)
    requires Inv(s) && ClaimedBy(rule, s, t, k.executionId, now, key, workerId)
    ensures var before, after := LeaseAt(s, k), LeaseAt(t, k);
            after == before
            || ((before.Some? ==> before.value.until <= now) && after.Some? && after.value.workerId == workerId && now <= after.value.until)
  {
    var r := Current(s, k.executionId);
    var lease := LeaseOf(rule, s.definitions[key], r.stepName);
    WorkedLease(s, t, k, ClaimedRow(r, workerId, now, lease.value));
  }

  lemma RenewedLease(rule: LeaseRule, s: Store, t: Store, k: StepKey, clock: Clock, stepName: string, workerId: string)
    requires Inv(s) && RenewedBy(rule, s, t, k.executionId, clock, stepName, workerId)
    ensures var before, after := LeaseAt(s, k), LeaseAt(t, k);
            after == before
            || (before.Some? && before.value.workerId == workerId && clock.checked < before.value.until
                && after.Some? && after.value.workerId == workerId && clock.stored <= after.value.until)
  {
    var r, until := RenewedRowOf(rule, s, t, k.executionId, clock, stepName, workerId);
    RenewedOn(Current(s, k.executionId), workerId, clock.checked, until);
    WorkedLease(s, t, k, r);
  }

  lemma RenewedOn(r: StepExecution, workerId: string, now: Time, until: Time)
    requires OwnsClaim(r, workerId, now)
    ensures LeaseOn(RenewedRow(r, until)) == Some(Lease(workerId, until))
    ensures LeaseOn(r).Some? && LeaseOn(r).value.workerId == workerId && now < LeaseOn(r).value.until
  {
  }

  lemma ChangeMovesLease(rule: LeaseRule, s: Store, c: Call, t: Store, k: StepKey)
    requires Inv(s) && k.executionId in s.executions && Change(rule, s, c, t, k.executionId)
    ensures LeaseStep(c, LeaseAt(s, k), LeaseAt(t, k))
  {
    var id := k.executionId;
    if LeaseAt(s, k).Some? {
      LeaseIsCurrent(s, k);
    }
    if Untouched(s, t, id) {
      RowLease(s, t, k);
    } else {
      match c
      case PollCall(now, name, version, workerId, _) => ClaimedLease(rule, s, t, k, now, DefinitionKey(name, version), workerId);
      case KeepAliveCall(clock, _, stepName, workerId) => RenewedLease(rule, s, t, k, clock, stepName, workerId);
      case CompleteCall(clock, _, stepName, workerId, output, _, decision) =>
        CompletedLease(s, t, k, clock, stepName, workerId, output, decision);
        OwnerHolds(s, id, stepName, workerId, clock.checked);
      case FailCall(clock, _, stepName, workerId, reason) =>
        FailedLease(s, t, k, reason, clock);
        OwnerHolds(s, id, stepName, workerId, clock.checked);
      case CancelCall(now, _) => CanceledLease(s, t, k, now);
      case SweepCall(now, created, _) => FailedLease(s, t, k, LEASE_EXPIRED, SweepClock(now, created, id));
    }
  }

  /* ---- whole runs ---- */

  ghost predicate HeldBy(s: Store, k: StepKey, workerId: string) {
    LeaseAt(s, k).Some? && LeaseAt(s, k).value.workerId == workerId
  }

  /** A call that takes a step out of its holder's hands: a claim or a sweep once the lease has run out, the
      holder's own completion or failure before it has, or a cancellation. */
  ghost predicate Takes(c: Call, held: Lease) {
    match c
    case PollCall(now, _, _, _, _) => held.until <= now
    case SweepCall(now, _, _) => held.until <= now
    case CompleteCall(clock, _, _, workerId, _, _, _) => workerId == held.workerId && clock.checked < held.until
    case FailCall(clock, _, _, workerId, _) => workerId == held.workerId && clock.checked < held.until
    case CancelCall(_, _) => true
    case _ => false
  }

  /** Where a holder loses a step. */
  lemma {:induction false} HolderLoses(rule: LeaseRule, states: seq<Store>, calls: seq<Call>, i: nat, j: nat, k: StepKey, w: string)
    returns (m: nat)
    requires Run(rule, states, calls) && i <= j <= |calls|
    requires HeldBy(states[i], k, w) && !HeldBy(states[j], k, w)
    ensures i <= m < j && HeldBy(states[m], k, w) && !HeldBy(states[m + 1], k, w)
    ensures Takes(calls[m], LeaseAt(states[m], k).value)
    ensures LeaseAt(states[m + 1], k).Some? ==> calls[m].PollCall? && calls[m].workerId == LeaseAt(states[m + 1], k).value.workerId
    decreases j - i
  {
    m := j - 1;
    if HeldBy(states[m], k, w) {
      NextLoses(rule, states, calls, m, k, w);
    } else {
      m := HolderLoses(rule, states, calls, i, m, k, w);
    }
  }

  lemma NextLoses(rule: LeaseRule, states: seq<Store>, calls: seq<Call>, m: nat, k: StepKey, w: string)
    requires Run(rule, states, calls) && m < |calls| && HeldBy(states[m], k, w) && !HeldBy(states[m + 1], k, w)
    ensures Takes(calls[m], LeaseAt(states[m], k).value)
    ensures LeaseAt(states[m + 1], k).Some? ==> calls[m].PollCall? && calls[m].workerId == LeaseAt(states[m + 1], k).value.workerId
  {
    RunKeeps(rule, states, calls, m);
    assert Next(rule, states[m], calls[m], states[m + 1]);
    CallMovesLease(rule, states[m], calls[m], k);
  }

  ghost predicate UnderLease(states: seq<Store>, i: nat, j: nat, k: StepKey)
    requires j < |states|
  {
    forall n :: i <= n <= j ==> LeaseAt(states[n], k).Some?
  }

  /** A step attempt that is under a lease all the way from one worker to a different one has been claimed in
      between, at or after the time to which its lease had last been granted. */
  lemma HandedOver(rule: LeaseRule, states: seq<Store>, calls: seq<Call>, i: nat, j: nat, k: StepKey, w: string, w': string)
    returns (m: nat)
    requires Run(rule, states, calls) && states[0] == EMPTY && i <= j <= |calls| && w != w'
    requires HeldBy(states[i], k, w) && HeldBy(states[j], k, w') && UnderLease(states, i, j, k)
    ensures i <= m < j && calls[m].PollCall? && calls[m].workerId != w
    ensures HeldBy(states[m], k, w) && HeldBy(states[m + 1], k, calls[m].workerId)
    ensures LastGranted(rule, states, calls, m, k) == LeaseAt(states[m], k) && LeaseAt(states[m], k).value.until <= calls[m].now
  {
    m := HolderLoses(rule, states, calls, i, j, k, w);
    LeaseThere(states, i, j, m + 1, k);
    RunGrants(rule, states, calls, m, k);
  }

  lemma LeaseThere(states: seq<Store>, i: nat, j: nat, n: nat, k: StepKey)
    requires i <= n <= j < |states| && UnderLease(states, i, j, k)
    ensures LeaseAt(states[n], k).Some?
  {
  }

  /** Keep-alive, complete and fail go through only for the worker the current step was last granted to, and
      only strictly before the time it was granted to. */
  lemma OnlyTheHolderWorks(rule: LeaseRule, states: seq<Store>, calls: seq<Call>, i: nat)
    requires Run(rule, states, calls) && states[0] == EMPTY && i < |calls|
    requires calls[i].KeepAliveCall? || calls[i].CompleteCall? || calls[i].FailCall?
    requires Next(rule, states[i], calls[i], states[i + 1]) && Effect(rule, states[i], calls[i]).Some?
    ensures calls[i].id in states[i].executions
    ensures var e := states[i].executions[calls[i].id];
            var granted := LastGranted(rule, states, calls, i, CurrentKey(e));
            && e.status.Running? && e.currentStepName == calls[i].stepName
            && granted.Some? && granted.value.workerId == calls[i].workerId && calls[i].clock.checked < granted.value.until
  {
    var s, c := states[i], calls[i];
    RunKeeps(rule, states, calls, i);
    OwnerHolds(s, c.id, c.stepName, c.workerId, c.clock.checked);
    OwnedIsCurrent(s, c.id, c.stepName, c.workerId, c.clock.checked);
    RunGrants(rule, states, calls, i, CurrentKey(s.executions[c.id]));
  }
}
