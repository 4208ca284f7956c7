/** A step row as the calls of a run account for it: its times, status, worker, reason and output. */
module Histories {
  import opened Prelude
  import opened JsonValue
  import opened Domain
  import opened Tables
  import opened Operations
  import opened Candidates
  import opened Invariant
  import opened Preservation
  import opened Sweeping
  import opened Runs
  import opened Singletons
  import opened Polling
  import opened Leases
  import opened Reclaim
  import opened Origins

  /** All of a row but its key, its workflow and its lease: when it was created, is to be claimed from, was started
      and was completed; its status, worker, reason and output; what it works on. */
  datatype Account = Account(
    created: Option<Time>,
    scheduled: Option<Time>,
    started: Option<Time>,
    completed: Option<Time>,
    status: StepStatus,
    worker: Option<string>,
    reason: Option<string>,
    output: Json,
    input: Json,
    state: Json)

  const BLANK := Account(None, None, None, None, StepStatus.Pending, None, None, EMPTY_OBJECT, EMPTY_OBJECT, EMPTY_OBJECT)

  function AccountOf(r: StepExecution): Account {
    Account(r.createdAt, r.scheduledAt, r.startedAt, r.completedAt, r.status, r.workerId, r.failureReason, r.output, r.input, r.state)
  }

  function AccountAt(s: Store, k: StepKey): Account {
    if k in s.steps then AccountOf(s.steps[k]) else BLANK
  }

  /* ---- what can happen to a row ---- */

  /** The call puts the row there to be claimed. */
  ghost predicate Opens(s: Store, t: Store, k: StepKey) {
    k in t.steps && t.steps[k].status.Pending? && !(k in s.steps && s.steps[k].status.Pending?)
  }

  /** The call's return value gives the step to its caller, a worker that polls. */
  ghost predicate HandsOut(rule: LeaseRule, s: Store, c: Call, k: StepKey)
    requires Keyed(s)
  {
    c.PollCall? && Granted(rule, s, c, k).Some?
  }

  ghost predicate Shuts(s: Store, t: Store, k: StepKey) {
    k in s.steps && s.steps[k].Open() && k in t.steps && !t.steps[k].Open()
  }

  /** The reading of the clock a call makes for a row it opens. */
  function CreationReading(c: Call, id: string): Time {
    match c
    case StartCall(clock, _, _, _, _) => clock.created
    case CompleteCall(clock, _, _, _, _, _, _) => clock.created
    case FailCall(clock, _, _, _, _) => clock.created
    case SweepCall(now, created, _) => if id in created then created[id] else now
    case _ => 0
  }

  /** When the row a call opens may first be claimed: only a completion can put that off. */
  function NotBefore(c: Call): Option<Time> {
    if c.CompleteCall? && c.delay.Some? then Some(c.clock.settled + c.delay.value) else None
  }

  /** A row as a call opens it, on the input and state it gets. */
  function OpenedBy(c: Call, id: string, input: Json, state: Json): Account {
    Account(Some(CreationReading(c, id)), NotBefore(c), None, None, StepStatus.Pending, None, None, Object(map[]), input, state)
  }

  /** What a call that closes a row makes of it. */
  function ShutBy(c: Call, before: Account): Account {
    match c
    case CompleteCall(clock, _, _, _, output, _, _) =>
      before.(completed := Some(clock.stored), status := StepStatus.Completed, output := output)
    case FailCall(clock, _, _, _, reason) => before.(completed := Some(clock.stored), status := StepStatus.Failed, reason := Some(reason))
    case CancelCall(now, _) => before.(completed := Some(now), status := StepStatus.Canceled, worker := None)
    case SweepCall(now, _, _) => before.(completed := Some(now), status := StepStatus.Failed, reason := Some("lease expired"))
    case _ => before
  }

  /** What a poll makes of a row it hands out. */
  function HandedBy(now: Time, workerId: string, before: Account): Account {
    before.(started := Some(now), status := StepStatus.Running, worker := Some(workerId), reason := None)
  }

  /** The account of a row after one more call. */
  ghost function Accounted(rule: LeaseRule, s: Store, c: Call, t: Store, k: StepKey, before: Account): Account
    requires Keyed(s)
  {
    if Opens(s, t, k) then OpenedBy(c, k.executionId, t.steps[k].input, t.steps[k].state)
    else if HandsOut(rule, s, c, k) then HandedBy(c.now, c.workerId, before)
    else if Shuts(s, t, k) then ShutBy(c, before)
    else before
  }

  /** The account of a row after the first `i` calls: when and how it was last opened, when and to whom it was last
      handed out since, when and how it was closed. */
  ghost function History(rule: LeaseRule, states: seq<Store>, calls: seq<Call>, i: nat, k: StepKey): Account
    requires i <= |calls| && |states| == |calls| + 1
  {
    if i == 0 || !Keyed(states[i - 1]) then BLANK
    else
      Accounted(rule, states[i - 1], calls[i - 1], states[i], k, History(rule, states, calls, i - 1, k))
  }

  /* ---- one call ---- */

  predicate OpensRows(c: Call) {
    c.StartCall? || c.CompleteCall? || c.FailCall? || c.SweepCall?
  }

  predicate ShutsRows(c: Call) {
    c.CompleteCall? || c.FailCall? || c.CancelCall? || c.SweepCall?
  }

  /** The row is accounted for by the call, and opened by it if it was not there; only calls that open rows do,
      and only calls that close rows do. */
  ghost predicate Explained(rule: LeaseRule, s: Store, c: Call, t: Store, k: StepKey)
    requires Keyed(s)
  {
    && (k in t.steps ==> (k in s.steps || Opens(s, t, k)) && AccountOf(t.steps[k]) == Accounted(rule, s, c, t, k, AccountAt(s, k)))
    && (Opens(s, t, k) ==> OpensRows(c))
    && (Shuts(s, t, k) ==> ShutsRows(c))
  }

  lemma UnchangedExplained(rule: LeaseRule, s: Store, c: Call, t: Store, k: StepKey)
    requires Keyed(s) && !c.PollCall? && Lookup(s.steps, k) == Lookup(t.steps, k)
    ensures Explained(rule, s, c, t, k)
  {
  }

  lemma NotReturned(claimed: seq<StepExecution>, k: StepKey)
    requires ClaimIn(claimed, k).None? && forall i :: 0 <= i < |claimed| ==> LeaseOn(claimed[i]).Some?
    ensures forall i :: 0 <= i < |claimed| ==> KeyOfStep(claimed[i]) != k
  {
    if claimed != [] {
      NotReturned(claimed[..|claimed| - 1], k);
    }
  }

  /** A row a poll returns has its key in the tables afterwards, and is as it was but for the claim. */
  lemma ReturnedRow(rule: LeaseRule, s: Store, now: Time, key: DefinitionKey, workerId: string, max: nat, k: StepKey) returns (r: StepExecution)
    requires Inv(s) && key in s.definitions && Poll(rule, s, now, key.name, key.version, workerId, max).Done?
    requires ClaimIn(Poll(rule, s, now, key.name, key.version, workerId, max).value, k).Some?
    ensures Lookup(Apply(s, Poll(rule, s, now, key.name, key.version, workerId, max).writes).steps, k) == Some(r)
    ensures k in s.steps && AccountOf(r) == HandedBy(now, workerId, AccountOf(s.steps[k]))
  {
    var claimed := Poll(rule, s, now, key.name, key.version, workerId, max).value;
    var i := ClaimInRow(claimed, k);
    r := claimed[i];
    AllClaimed(rule, s, now, key, workerId, max);
    ClaimAccount(rule, s, now, key, workerId, r, k);
    PollDistinct(rule, s, now, key, workerId, max);
    PollWritesApply(rule, s, now, key.name, key.version, workerId, max);
    PutThere(s, claimed, i);
  }

  lemma ClaimAccount(rule: LeaseRule, s: Store, now: Time, key: DefinitionKey, workerId: string, r: StepExecution, k: StepKey)
    requires Inv(s) && key in s.definitions && ClaimedFor(rule, s, now, key, workerId, r) && KeyOfStep(r) == k
    ensures k in s.steps && AccountOf(r) == HandedBy(now, workerId, AccountOf(s.steps[k]))
  {
    assert ExecutionOk(s, s.executions[r.executionId]);
  }

  lemma PollDistinct(rule: LeaseRule, s: Store, now: Time, key: DefinitionKey, workerId: string, max: nat)
    requires Keyed(s) && key in s.definitions && Poll(rule, s, now, key.name, key.version, workerId, max).Done?
    ensures DistinctKeys(Poll(rule, s, now, key.name, key.version, workerId, max).value)
  {
    ChosenRows(s, key, now, max);
    ClaimAllKeys(rule, s.definitions[key], Chosen(CandidateList(s, key), now, max), workerId, now);
  }

  lemma PollExplained(rule: LeaseRule, s: Store, c: Call, t: Store, k: StepKey)
    requires Inv(s) && c.PollCall? && Next(rule, s, c, t)
    ensures Explained(rule, s, c, t, k)
  {
    var key := DefinitionKey(c.name, c.version);
    if Effect(rule, s, c).Some? {
      var claimed := Poll(rule, s, c.now, c.name, c.version, c.workerId, c.max).value;
      if ClaimIn(claimed, k).Some? {
        var r := ReturnedRow(rule, s, c.now, key, c.workerId, c.max, k);
      } else {
        NothingReturned(rule, s, c.now, key, c.workerId, c.max, k);
      }
    }
  }

  lemma NothingReturned(rule: LeaseRule, s: Store, now: Time, key: DefinitionKey, workerId: string, max: nat, k: StepKey)
    requires Inv(s) && key in s.definitions && Poll(rule, s, now, key.name, key.version, workerId, max).Done?
    requires ClaimIn(Poll(rule, s, now, key.name, key.version, workerId, max).value, k).None?
    ensures Lookup(Apply(s, Poll(rule, s, now, key.name, key.version, workerId, max).writes).steps, k) == Lookup(s.steps, k)
  {
    var claimed := Poll(rule, s, now, key.name, key.version, workerId, max).value;
    PolledUnderLease(rule, s, now, key.name, key.version, workerId, max);
    NotReturned(claimed, k);
    PollWritesApply(rule, s, now, key.name, key.version, workerId, max);
    PutElsewhere(s, claimed, k);
  }

  /** A start puts one row, to be claimed at once. */
  lemma StartPuts(rule: LeaseRule, s: Store, c: Call) returns (r: StepExecution)
    requires Inv(s) && c.StartCall? && Effect(rule, s, c).Some?
    ensures After(rule, s, c).steps == s.steps[KeyOfStep(r) := r]
    ensures AccountOf(r) == OpenedBy(c, c.id, r.input, r.state)
  {
    var d := s.definitions[DefinitionKey(c.name, c.version)];
    var e := NewExecution(d, c.id, c.name, c.version, c.input, c.clock.stored);
    r := NewStep(e, e.currentStepName, 0, c.input, c.clock.created, None);
    ApplyCreate(s, d.singleton, LockFor(e), e, r);
  }

  /** A row of an execution there was not: the one its start puts. */
  lemma StartExplained(rule: LeaseRule, s: Store, c: Call, t: Store, k: StepKey)
    requires Inv(s) && Next(rule, s, c, t) && k.executionId !in s.executions
    ensures Explained(rule, s, c, t, k)
  {
    assert k in s.steps ==> StepOk(s, s.steps[k]);
    if k in t.steps {
      NewRowStarted(rule, s, c, t, k);
      var r := StartPuts(rule, s, c);
    }
  }

  lemma NewRowStarted(rule: LeaseRule, s: Store, c: Call, t: Store, k: StepKey)
    requires Inv(s) && Next(rule, s, c, t) && k.executionId !in s.executions && k in t.steps
    ensures c.StartCall? && Effect(rule, s, c).Some?
  {
    CallKeeps(rule, s, c);
    assert StepOk(t, t.steps[k]);
    NewlyStarted(rule, s, c, k.executionId);
  }

  lemma OpenIsCurrent(s: Store, k: StepKey)
    requires Inv(s) && k in s.steps && s.steps[k].Open()
    ensures RunningOn(s, k)
  {
    assert StepOk(s, s.steps[k]);
  }

  /** The current row of a running execution, closed as the call closes rows. */
  ghost predicate ShutAs(s: Store, id: string, closed: StepExecution, c: Call) {
    && RunningOn(s, KeyOfStep(closed)) && closed.executionId == id
    && KeyOfStep(closed) in s.steps && s.steps[KeyOfStep(closed)].status.Running? && !closed.Open()
    && AccountOf(closed) == ShutBy(c, AccountOf(s.steps[KeyOfStep(closed)]))
  }

  lemma EndExplained(rule: LeaseRule, s: Store, c: Call, t: Store, k: StepKey, closed: StepExecution)
    requires Inv(s) && ShutsRows(c) && ShutAs(s, k.executionId, closed, c)
    requires SameRows(PutStep(s, closed), t, k.executionId)
    ensures Explained(rule, s, c, t, k)
  {
    assert Lookup(PutStep(s, closed).steps, k) == Lookup(t.steps, k);
    if k in s.steps && s.steps[k].Open() {
      OpenIsCurrent(s, k);
    }
  }

  lemma MoveExplained(rule: LeaseRule, s: Store, c: Call, t: Store, k: StepKey, closed: StepExecution, next: StepExecution)
    requires Inv(s) && ShutsRows(c) && ShutAs(s, k.executionId, closed, c)
    requires next.executionId == k.executionId && SameRows(PutStep(PutStep(s, closed), next), t, k.executionId)
    requires AccountOf(next) == OpenedBy(c, k.executionId, next.input, next.state)
    requires OpensRows(c)
    ensures Explained(rule, s, c, t, k)
  {
    assert Lookup(PutStep(PutStep(s, closed), next).steps, k) == Lookup(t.steps, k);
    if k in s.steps && s.steps[k].Open() {
      OpenIsCurrent(s, k);
    }
  }

  lemma CompletionExplained(rule: LeaseRule, s: Store, c: Call, t: Store, k: StepKey)
    requires Inv(s) && Next(rule, s, c, t) && c.CompleteCall? && Effect(rule, s, c).Some? && k.executionId == c.id
    ensures Explained(rule, s, c, t, k)
  {
    var e, closed, next := CompletionPuts(s, c.clock, c.id, c.stepName, c.workerId, c.output, c.delay, c.decision, t);
    CompletedShut(s, c.id, closed, c);
    if c.decision.workflowComplete {
      EndExplained(rule, s, c, t, k, closed);
    } else {
      CompletedOpens(c, e, next);
      MoveExplained(rule, s, c, t, k, closed, next);
    }
  }

  lemma CompletedOpens(c: Call, e: Execution, next: StepExecution)
    requires c.CompleteCall? && Opened(next, e, c.clock, c.delay, c.decision)
    ensures AccountOf(next) == OpenedBy(c, c.id, next.input, next.state)
  {
  }

  lemma CompletedShut(s: Store, id: string, closed: StepExecution, c: Call)
    requires c.CompleteCall? && RunningOn(s, KeyOfStep(closed)) && closed.executionId == id && KeyOfStep(closed) in s.steps
    requires closed == CompletedRow(s.steps[KeyOfStep(closed)], c.output, c.clock.stored) && s.steps[KeyOfStep(closed)].status.Running?
    ensures ShutAs(s, id, closed, c)
  {
  }

  lemma FailureExplained(rule: LeaseRule, s: Store, c: Call, t: Store, k: StepKey, reason: string, clock: Clock)
    requires Inv(s) && (c.FailCall? || c.SweepCall?) && FailedOnce(s, t, k.executionId, reason, clock)
    requires FailsWith(c, k.executionId, reason, clock)
    ensures Explained(rule, s, c, t, k)
  {
    var e := s.executions[k.executionId];
    var r := FailedRow(s.steps[CurrentKey(e)], reason, clock.stored);
    FailedShut(s, t, k.executionId, c, reason, clock);
    FailedOnceShape(s, t, k.executionId, reason, clock, r);
    if t.executions[k.executionId].status.Running? {
      MoveExplained(rule, s, c, t, k, r, t.steps[CurrentKey(t.executions[k.executionId])]);
    } else {
      EndExplained(rule, s, c, t, k, r);
    }
  }

  /** The reason and the readings a failing call gives. */
  predicate FailsWith(c: Call, id: string, reason: string, clock: Clock) {
    && clock.created == CreationReading(c, id)
    && match c
       case FailCall(clock', _, _, _, reason') => reason == reason' && clock.stored == clock'.stored
       case SweepCall(now, _, _) => reason == "lease expired" && clock.stored == now
       case _ => false
  }

  lemma FailedShut(s: Store, t: Store, id: string, c: Call, reason: string, clock: Clock)
    requires Inv(s) && FailedOnce(s, t, id, reason, clock) && FailsWith(c, id, reason, clock)
    ensures ShutAs(s, id, FailedRow(s.steps[CurrentKey(s.executions[id])], reason, clock.stored), c)
  {
  }

  lemma RenewalExplained(rule: LeaseRule, s: Store, c: Call, t: Store, k: StepKey)
    requires Inv(s) && c.KeepAliveCall? && RenewedBy(rule, s, t, k.executionId, c.clock, c.stepName, c.workerId)
    ensures Explained(rule, s, c, t, k)
  {
    var r, until := RenewedRowOf(rule, s, t, k.executionId, c.clock, c.stepName, c.workerId);
    assert Lookup(PutStep(s, r).steps, k) == Lookup(t.steps, k);
  }

  lemma CancelExplained(rule: LeaseRule, s: Store, c: Call, t: Store, k: StepKey)
    requires Inv(s) && c.CancelCall? && CanceledBy(s, t, k.executionId, c.now)
    ensures Explained(rule, s, c, t, k)
  {
    var r := CanceledRow(Current(s, k.executionId), c.now);
    assert Lookup(PutStep(s, r).steps, k) == Lookup(t.steps, k);
    if k in s.steps && s.steps[k].Open() {
      OpenIsCurrent(s, k);
    }
  }

  lemma ChangeExplained(rule: LeaseRule, s: Store, c: Call, t: Store, k: StepKey)
    requires Inv(s) && Next(rule, s, c, t) && k.executionId in s.executions && !c.PollCall? && !Untouched(s, t, k.executionId)
    ensures Explained(rule, s, c, t, k)
  {
    var id := k.executionId;
    CallChanges(rule, s, c, id);
    match c
    case KeepAliveCall(_, _, _, _) => RenewalExplained(rule, s, c, t, k);
    case CompleteCall(_, _, _, _, _, _, _) => CompletionExplained(rule, s, c, t, k);
    case FailCall(clock, _, _, _, reason) => FailureExplained(rule, s, c, t, k, reason, clock);
    case CancelCall(_, _) => CancelExplained(rule, s, c, t, k);
    case SweepCall(now, created, _) => FailureExplained(rule, s, c, t, k, LEASE_EXPIRED, SweepClock(now, created, id));
  }

  lemma CallExplained(rule: LeaseRule, s: Store, c: Call, t: Store, k: StepKey)
    requires Inv(s) && Next(rule, s, c, t)
    ensures Explained(rule, s, c, t, k)
  {
    if k.executionId !in s.executions {
      StartExplained(rule, s, c, t, k);
    } else if c.PollCall? {
      PollExplained(rule, s, c, t, k);
    } else if Untouched(s, t, k.executionId) {
      assert Lookup(s.steps, k) == Lookup(t.steps, k);
      UnchangedExplained(rule, s, c, t, k);
    } else {
      ChangeExplained(rule, s, c, t, k);
    }
  }

  /* ---- whole runs ---- */

  /** In every state of every run from empty tables, each step row is what its history accounts for: created at
      the reading of the call that last opened its key, be it a start, a completion, a failure or a sweep, to be
      claimed from the end of that completion's delay, and on the same input and state since; started at the poll
      that last handed it out, by the worker it was handed to; completed at the reading of the call that closed it,
      with the status, output and reason of such a call. No other call changes any of it. */
  lemma RowHistory(rule: LeaseRule, states: seq<Store>, calls: seq<Call>, i: nat, k: StepKey)
    requires Run(rule, states, calls) && states[0] == EMPTY && i <= |calls|
    ensures k in states[i].steps ==> AccountOf(states[i].steps[k]) == History(rule, states, calls, i, k)
  {
    AllKeepOn(rule, states, calls, k);
    HistoryOn(rule, states, calls, 0, i, k);
  }

  ghost predicate Kept(rule: LeaseRule, states: seq<Store>, calls: seq<Call>, i: nat, k: StepKey)
    requires i <= |calls| && |states| == |calls| + 1
  {
    k in states[i].steps ==> AccountOf(states[i].steps[k]) == History(rule, states, calls, i, k)
  }

  /** Call `n` keeps to the account. */
  ghost predicate KeepsOn(rule: LeaseRule, states: seq<Store>, calls: seq<Call>, n: nat, k: StepKey)
    requires n < |calls| && |states| == |calls| + 1
  {
    Kept(rule, states, calls, n, k) ==> Kept(rule, states, calls, n + 1, k)
  }

  lemma AllKeepOn(rule: LeaseRule, states: seq<Store>, calls: seq<Call>, k: StepKey)
    requires Run(rule, states, calls)
    ensures forall n :: 0 <= n < |calls| ==> KeepsOn(rule, states, calls, n, k)
  {
    forall n | 0 <= n < |calls| ensures KeepsOn(rule, states, calls, n, k) {
      if Kept(rule, states, calls, n, k) {
        NextHistory(rule, states, calls, n, k);
      }
    }
  }

  lemma {:induction false} HistoryOn(rule: LeaseRule, states: seq<Store>, calls: seq<Call>, i: nat, j: nat, k: StepKey)
    requires i <= j <= |calls| && |states| == |calls| + 1 && Kept(rule, states, calls, i, k)
    requires forall n :: 0 <= n < |calls| ==> KeepsOn(rule, states, calls, n, k)
    ensures Kept(rule, states, calls, j, k)
    decreases j - i
  {
    if i < j {
      assert KeepsOn(rule, states, calls, i, k);
      HistoryOn(rule, states, calls, i + 1, j, k);
    }
  }

  lemma NextHistory(rule: LeaseRule, states: seq<Store>, calls: seq<Call>, i: nat, k: StepKey)
    requires Run(rule, states, calls) && i < |calls| && Kept(rule, states, calls, i, k)
    ensures Kept(rule, states, calls, i + 1, k)
  {
    NextExplained(rule, states, calls, i, k);
    HistoryStep(rule, states, calls, i, k);
  }

  lemma NextExplained(rule: LeaseRule, states: seq<Store>, calls: seq<Call>, i: nat, k: StepKey)
    requires Run(rule, states, calls) && i < |calls|
    ensures Keyed(states[i]) && Explained(rule, states[i], calls[i], states[i + 1], k)
  {
    RunKeeps(rule, states, calls, i);
    assert Next(rule, states[i], calls[i], states[i + 1]);
    CallExplained(rule, states[i], calls[i], states[i + 1], k);
  }

  lemma HistoryStep(rule: LeaseRule, states: seq<Store>, calls: seq<Call>, i: nat, k: StepKey)
    requires Run(rule, states, calls) && i < |calls| && Keyed(states[i])
    ensures History(rule, states, calls, i + 1, k)
         == Accounted(rule, states[i], calls[i], states[i + 1], k, History(rule, states, calls, i, k))
  {
  }

  ghost predicate OpensAt(states: seq<Store>, n: nat, k: StepKey) {
    n + 1 < |states| && Opens(states[n], states[n + 1], k)
  }

  /** Of the first `j` calls, call `i` is the last to open the row. */
  ghost predicate LastOpening(states: seq<Store>, i: nat, j: nat, k: StepKey) {
    i < j && OpensAt(states, i, k) && forall n: nat :: i < n < j ==> !OpensAt(states, n, k)
  }

  /** Each row in the tables was last opened by a call of the run that starts, completes, fails or sweeps, and
      carries the reading that call made for it. */
  lemma {:induction false} WhenOpened(rule: LeaseRule, states: seq<Store>, calls: seq<Call>, j: nat, k: StepKey) returns (i: nat)
    requires Run(rule, states, calls) && states[0] == EMPTY && j <= |calls| && k in states[j].steps
    ensures LastOpening(states, i, j, k) && OpensRows(calls[i])
    ensures states[j].steps[k].createdAt == Some(CreationReading(calls[i], k.executionId))
  {
    i := j - 1;
    var now := NextOpened(rule, states, calls, i, k);
    if now {
      JustOpened(states, i, k);
    } else {
      var before := i;
      i := WhenOpened(rule, states, calls, before, k);
      OpeningStays(states, i, before, k);
    }
  }

  lemma JustOpened(states: seq<Store>, i: nat, k: StepKey)
    requires OpensAt(states, i, k)
    ensures LastOpening(states, i, i + 1, k)
  {
  }

  lemma OpeningStays(states: seq<Store>, i: nat, j: nat, k: StepKey)
    requires LastOpening(states, i, j, k) && !OpensAt(states, j, k)
    ensures LastOpening(states, i, j + 1, k)
  {
  }

  lemma NextOpened(rule: LeaseRule, states: seq<Store>, calls: seq<Call>, i: nat, k: StepKey) returns (now: bool)
    requires Run(rule, states, calls) && i < |calls| && k in states[i + 1].steps
    ensures now == OpensAt(states, i, k)
    ensures if now then OpensRows(calls[i]) && states[i + 1].steps[k].createdAt == Some(CreationReading(calls[i], k.executionId))
            else k in states[i].steps && states[i + 1].steps[k].createdAt == states[i].steps[k].createdAt
  {
    NextExplained(rule, states, calls, i, k);
    now := Opens(states[i], states[i + 1], k);
  }

  /* ---- what polls make of it ---- */

  /** The execution is at the step, and the step can be had: the lease last given on it is up or, if it is under
      none, it is not put off beyond `now`. */
  ghost predicate Available(rule: LeaseRule, states: seq<Store>, calls: seq<Call>, i: nat, k: StepKey, now: Time)
    requires Run(rule, states, calls) && i <= |calls|
  {
    && RunningOn(states[i], k)
    && match LastGranted(rule, states, calls, i, k)
       case Some(lease) => lease.until <= now
       case None =>
         var from := History(rule, states, calls, i, k).scheduled;
         from.Some? ==> from.value <= now
  }

  lemma AvailableIsClaimable(rule: LeaseRule, states: seq<Store>, calls: seq<Call>, i: nat, k: StepKey, now: Time)
    requires Run(rule, states, calls) && states[0] == EMPTY && i <= |calls| && RunningOn(states[i], k)
    ensures Inv(states[i]) && k in states[i].steps
    ensures IsClaimable(states[i].steps[k], now) <==> Available(rule, states, calls, i, k, now)
  {
    RunKeeps(rule, states, calls, i);
    RunGrants(rule, states, calls, i, k);
    RowHistory(rule, states, calls, i, k);
    CurrentRowShape(states[i], k);
  }

  lemma CurrentRowShape(s: Store, k: StepKey)
    requires Inv(s) && RunningOn(s, k)
    ensures k in s.steps && s.steps[k].Open() && RowShape(s.steps[k])
  {
    assert ExecutionOk(s, s.executions[k.executionId]);
    assert StepOk(s, s.steps[k]);
  }
}
