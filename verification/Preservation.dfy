/** Every operation keeps the invariant. */
module Preservation {
  import opened Prelude
  import opened JsonValue
  import opened Domain
  import opened Tables
  import opened Operations
  import opened Candidates
  import opened Invariant

  lemma StartKeeps(s: Store, clock: Clock, id: string, name: string, version: int, input: Json)
    requires Inv(s) && id !in s.executions && Start(s, clock, id, name, version, input).Done?
    ensures Inv(Apply(s, Start(s, clock, id, name, version, input).writes))
  {
    var d := s.definitions[DefinitionKey(name, version)];
    var e := NewExecution(d, id, name, version, input, clock.stored);
    var r := NewStep(e, e.currentStepName, 0, input, clock.created, None);
    var locked := if d.singleton then PutLock(s, LockFor(e)) else s;
    if d.singleton {
      KeepsLock(s, LockFor(e));
    }
    KeepsCreate(locked, e, r);
    ApplyCreate(s, d.singleton, LockFor(e), e, r);
  }

  lemma ApplyStep(s: Store, r: StepExecution)
    ensures Apply(s, PutStep(EMPTY, r)) == PutStep(s, r)
  {
    ApplyNothing(s);
    ApplyPuts(s, EMPTY);
  }

  lemma ApplyCreate(s: Store, withLock: bool, l: SingletonLock, e: Execution, r: StepExecution)
    ensures Apply(s, PutStep(PutExecution(if withLock then PutLock(EMPTY, l) else EMPTY, e), r))
         == PutStep(PutExecution(if withLock then PutLock(s, l) else s, e), r)
  {
    ApplyNothing(s);
    ApplyPuts(s, EMPTY);
    ApplyPuts(s, PutLock(EMPTY, l));
    ApplyPuts(s, PutExecution(if withLock then PutLock(EMPTY, l) else EMPTY, e));
  }

  lemma ApplyEnd(s: Store, e: Execution, r: StepExecution)
    ensures Apply(s, PutExecution(PutStep(EMPTY, r), e)) == PutExecution(PutStep(s, r), e)
  {
    ApplyNothing(s);
    ApplyPuts(s, EMPTY);
    ApplyPuts(s, PutStep(EMPTY, r));
  }

  lemma ApplyMove(s: Store, e: Execution, r: StepExecution, next: StepExecution)
    ensures Apply(s, PutStep(PutExecution(PutStep(EMPTY, r), e), next)) == PutStep(PutExecution(PutStep(s, r), e), next)
  {
    ApplyEnd(s, e, r);
    ApplyPuts(s, PutExecution(PutStep(EMPTY, r), e));
  }

  /** A successful claim check is about the current row of a running execution. */
  lemma OwnedIsCurrent(s: Store, id: string, stepName: string, workerId: string, now: Time)
    requires Inv(s) && Owned(s, id, stepName, workerId, now).Some?
    ensures var claim := Owned(s, id, stepName, workerId, now).value;
            id in s.executions && claim.execution == s.executions[id] && claim.execution.status.Running?
            && claim.execution.id == id && claim.execution.currentStepName == stepName
            && CurrentKey(claim.execution) in s.steps && claim.row == s.steps[CurrentKey(claim.execution)]
            && KeyOfStep(claim.row) == CurrentKey(claim.execution)
            && claim.row.status.Running? && StepOk(s, claim.row) && ExecutionOk(s, claim.execution)
            && claim.definition == s.definitions[WorkflowOf(claim.execution)]
  {
  }

  lemma KeepAliveKeeps(rule: LeaseRule, s: Store, clock: Clock, id: string, stepName: string, workerId: string)
    requires Inv(s) && KeepAlive(rule, s, clock, id, stepName, workerId).Done?
    ensures Inv(Apply(s, KeepAlive(rule, s, clock, id, stepName, workerId).writes))
  {
    OwnedIsCurrent(s, id, stepName, workerId, clock.checked);
    var row := KeepAlive(rule, s, clock, id, stepName, workerId).value;
    KeepsOpen(s, row);
    ApplyStep(s, row);
  }

  lemma CompleteKeeps(s: Store, clock: Clock, id: string, stepName: string, workerId: string, output: Json,
                      delay: Option<Time>, decision: NextStepDecision)
    requires Inv(s) && Complete(s, clock, id, stepName, workerId, output, delay, decision).Done?
    ensures Inv(Apply(s, Complete(s, clock, id, stepName, workerId, output, delay, decision).writes))
  {
    OwnedIsCurrent(s, id, stepName, workerId, clock.checked);
    var claim := Owned(s, id, stepName, workerId, clock.checked).value;
    var o := Complete(s, clock, id, stepName, workerId, output, delay, decision);
    var r := CompletedRow(claim.row, output, clock.stored);
    assert Ends(s, o.value, r);
    if decision.workflowComplete {
      ApplyEnd(s, o.value, r);
      KeepsEnd(s, o.value, r);
    } else {
      var next := o.writes.steps[CurrentKey(o.value)];
      assert o.writes == PutStep(PutExecution(PutStep(EMPTY, r), o.value), next);
      ApplyMove(s, o.value, r, next);
      KeepsMove(s, o.value, r, next);
    }
  }

  lemma SettleKeeps(s: Store, e: Execution, r: StepExecution, maxRetries: int, reason: string, clock: Clock)
    requires Inv(s) && e.id in s.executions && e == s.executions[e.id] && e.status.Running?
    requires CurrentKey(e) in s.steps && r == s.steps[CurrentKey(e)]
    ensures Inv(Apply(s, Settle(e, r, maxRetries, reason, clock).writes))
  {
    var x := Settle(e, r, maxRetries, reason, clock);
    var e' := x.execution;
    var failed := FailedRow(r, reason, clock.stored);
    assert StepOk(s, r) && ExecutionOk(s, e);
    if x.retried {
      var next := NewStep(e', r.stepName, e'.currentStepAttempt, r.input, clock.created, None);
      ApplyMove(s, e', failed, next);
      KeepsMove(s, e', failed, next);
    } else {
      ApplyEnd(s, e', failed);
      KeepsEnd(s, e', failed);
    }
  }

  lemma FailKeeps(s: Store, clock: Clock, id: string, stepName: string, workerId: string, reason: string)
    requires Inv(s) && Fail(s, clock, id, stepName, workerId, reason).Done?
    ensures Inv(Apply(s, Fail(s, clock, id, stepName, workerId, reason).writes))
  {
    OwnedIsCurrent(s, id, stepName, workerId, clock.checked);
    var claim := Owned(s, id, stepName, workerId, clock.checked).value;
    SettleKeeps(s, claim.execution, claim.row, RetriesOf(claim.definition, stepName).value, reason, clock);
  }

  /** Cancelling closes one row, the current one. */
  lemma CancelClosesCurrent(s: Store, now: Time, id: string)
    requires Inv(s) && Cancel(s, now, id).Done?
    ensures var e := s.executions[id];
            CurrentKey(e) in s.steps
            && Apply(s, Cancel(s, now, id).writes)
               == PutExecution(PutStep(s, CanceledRow(s.steps[CurrentKey(e)], now)), Cancel(s, now, id).value)
  {
    var e := s.executions[id];
    assert ExecutionOk(s, e);
    var w := Cancel(s, now, id).writes;
    var r := CanceledRow(s.steps[CurrentKey(e)], now);
    assert forall k :: k in w.steps ==> StepOk(s, s.steps[k]);
    assert w.steps == map[CurrentKey(e) := r];
    ApplyNothing(s);
    assert s.steps + w.steps == s.steps[KeyOfStep(r) := r];
    assert s.executions + w.executions == s.executions[id := Cancel(s, now, id).value];
  }

  lemma CancelKeeps(s: Store, now: Time, id: string)
    requires Inv(s) && Cancel(s, now, id).Done?
    ensures Inv(Apply(s, Cancel(s, now, id).writes))
  {
    CancelClosesCurrent(s, now, id);
    var e := s.executions[id];
    assert ExecutionOk(s, e) && StepOk(s, s.steps[CurrentKey(e)]);
    KeepsEnd(s, Cancel(s, now, id).value, CanceledRow(s.steps[CurrentKey(e)], now));
  }

  /* ---- poll ---- */

  lemma {:induction false} ChosenAmong(rows: seq<StepExecution>, now: Time, max: nat)
    ensures forall r :: r in Chosen(rows, now, max) ==> r in rows && IsClaimable(r, now)
    ensures |Chosen(rows, now, max)| <= max
  {
    if rows != [] && max != 0 {
      ChosenAmong(rows[1..], now, if IsClaimable(rows[0], now) then max - 1 else max);
    }
  }

  lemma {:induction false} ChosenSorted(rows: seq<StepExecution>, now: Time, max: nat)
    requires Sorted(rows)
    ensures Sorted(Chosen(rows, now, max))
  {
    if rows != [] && max != 0 {
      var m := if IsClaimable(rows[0], now) then max - 1 else max;
      var rest := Chosen(rows[1..], now, m);
      ChosenSorted(rows[1..], now, m);
      ChosenAmong(rows[1..], now, m);
      forall j | 0 <= j < |rest| ensures Before(rows[0], rest[j]) {
        assert rest[j] in rows[1..];
      }
    }
  }

  lemma BeforeIrreflexive(a: StepExecution)
    ensures !Before(a, a)
  {
  }

  /** What a poll chooses: open rows of the table, each under its own key, no key twice. */
  lemma ChosenRows(s: Store, key: DefinitionKey, now: Time, max: nat)
    requires Keyed(s)
    ensures var chosen := Chosen(CandidateList(s, key), now, max);
            Sorted(chosen) && DistinctKeys(chosen) && |chosen| <= max
            && forall i :: 0 <= i < |chosen| ==>
                 var k := KeyOfStep(chosen[i]);
                 k in s.steps && s.steps[k] == chosen[i] && chosen[i].Open() && WorkflowKey(chosen[i]) == key
                 && IsClaimable(chosen[i], now)
  {
    var list := CandidateList(s, key);
    var chosen := Chosen(list, now, max);
    ChosenAmong(list, now, max);
    ChosenSorted(list, now, max);
    forall i | 0 <= i < |chosen| ensures chosen[i] in OpenRows(s, key) {
      assert chosen[i] in chosen;
    }
    forall i, j | 0 <= i < j < |chosen| ensures KeyOfStep(chosen[i]) != KeyOfStep(chosen[j]) {
      if KeyOfStep(chosen[i]) == KeyOfStep(chosen[j]) {
        assert chosen[i] in OpenRows(s, key) && chosen[j] in OpenRows(s, key);
        BeforeIrreflexive(chosen[i]);
      }
    }
  }

  lemma {:induction false} PutStepsThere(s: Store, rows: seq<StepExecution>)
    requires DistinctKeys(rows)
    ensures var t := PutSteps(s, rows);
            && (forall i :: 0 <= i < |rows| ==> KeyOfStep(rows[i]) in t.steps && t.steps[KeyOfStep(rows[i])] == rows[i])
            && (forall k :: k in s.steps ==> k in t.steps)
  {
    if rows != [] {
      PutStepsThere(s, rows[..|rows| - 1]);
    }
  }

  lemma {:induction false} PutStepsElsewhere(s: Store, rows: seq<StepExecution>)
    ensures var t := PutSteps(s, rows);
            && t.definitions == s.definitions && t.executions == s.executions && t.locks == s.locks
            && (forall k :: (forall i :: 0 <= i < |rows| ==> KeyOfStep(rows[i]) != k) ==> Lookup(t.steps, k) == Lookup(s.steps, k))
  {
    if rows != [] {
      PutStepsElsewhere(s, rows[..|rows| - 1]);
      forall k | forall i :: 0 <= i < |rows| ==> KeyOfStep(rows[i]) != k
        ensures Lookup(PutSteps(s, rows).steps, k) == Lookup(s.steps, k)
      {
        assert KeyOfStep(rows[|rows| - 1]) != k;
      }
    }
  }

  lemma PutElsewhere(s: Store, rows: seq<StepExecution>, k: StepKey)
    requires forall i :: 0 <= i < |rows| ==> KeyOfStep(rows[i]) != k
    ensures Lookup(PutSteps(s, rows).steps, k) == Lookup(s.steps, k)
  {
    PutStepsElsewhere(s, rows);
  }

  lemma PutThere(s: Store, rows: seq<StepExecution>, n: nat)
    requires DistinctKeys(rows) && n < |rows|
    ensures Lookup(PutSteps(s, rows).steps, KeyOfStep(rows[n])) == Some(rows[n])
  {
    PutStepsThere(s, rows);
  }

  lemma PutStepsAt(s: Store, rows: seq<StepExecution>)
    requires DistinctKeys(rows)
    ensures var t := PutSteps(s, rows);
            t.definitions == s.definitions && t.executions == s.executions && t.locks == s.locks
            && (forall i :: 0 <= i < |rows| ==> KeyOfStep(rows[i]) in t.steps && t.steps[KeyOfStep(rows[i])] == rows[i])
            && (forall k :: k in t.steps && (forall i :: 0 <= i < |rows| ==> KeyOfStep(rows[i]) != k) ==> k in s.steps && t.steps[k] == s.steps[k])
            && (forall k :: k in s.steps ==> k in t.steps)
            && (forall k :: k in t.steps ==> k in s.steps || exists i :: 0 <= i < |rows| && KeyOfStep(rows[i]) == k)
  {
    PutStepsThere(s, rows);
    PutStepsElsewhere(s, rows);
    var t := PutSteps(s, rows);
    forall k | k in t.steps && (forall i :: 0 <= i < |rows| ==> KeyOfStep(rows[i]) != k) ensures k in s.steps && t.steps[k] == s.steps[k] {
      assert Lookup(t.steps, k) == Lookup(s.steps, k);
    }
  }

  lemma {:induction false} ApplyPutSteps(s: Store, w: Store, rows: seq<StepExecution>)
    ensures Apply(s, PutSteps(w, rows)) == PutSteps(Apply(s, w), rows)
  {
    if rows != [] {
      ApplyPutSteps(s, w, rows[..|rows| - 1]);
      ApplyPuts(s, PutSteps(w, rows[..|rows| - 1]));
    }
  }

  lemma {:induction false} PutStepsKeeps(s: Store, before: seq<StepExecution>, rows: seq<StepExecution>)
    requires Inv(s) && |before| == |rows| && DistinctKeys(rows)
    requires forall i :: 0 <= i < |rows| ==>
               KeyOfStep(rows[i]) in s.steps && s.steps[KeyOfStep(rows[i])] == before[i]
               && before[i].Open() && rows[i].Open() && RowShape(rows[i]) && rows[i].input == before[i].input
               && rows[i].workflowName == before[i].workflowName && rows[i].workflowVersion == before[i].workflowVersion
    ensures Inv(PutSteps(s, rows))
  {
    if rows != [] {
      var n := |rows| - 1;
      PutStepsKeeps(s, before[..n], rows[..n]);
      PutElsewhere(s, rows[..n], KeyOfStep(rows[n]));
      KeepsOpen(PutSteps(s, rows[..n]), rows[n]);
    }
  }

  lemma ClaimAllKeys(rule: LeaseRule, d: WorkflowDefinition, rows: seq<StepExecution>, workerId: string, now: Time)
    requires LeasesKnown(rule, d, rows) && DistinctKeys(rows)
    ensures DistinctKeys(ClaimAll(rule, d, rows, workerId, now))
  {
    var c := ClaimAll(rule, d, rows, workerId, now);
    assert forall i :: 0 <= i < |rows| ==> KeyOfStep(c[i]) == KeyOfStep(rows[i]);
  }

  lemma PollWritesApply(rule: LeaseRule, s: Store, now: Time, name: string, version: int, workerId: string, max: nat)
    requires Keyed(s) && Poll(rule, s, now, name, version, workerId, max).Done?
    ensures var o := Poll(rule, s, now, name, version, workerId, max);
            Apply(s, o.writes) == PutSteps(s, o.value)
  {
    ApplyPutSteps(s, EMPTY, Poll(rule, s, now, name, version, workerId, max).value);
    ApplyNothing(s);
  }

  lemma PollKeeps(rule: LeaseRule, s: Store, now: Time, name: string, version: int, workerId: string, max: nat)
    requires Inv(s) && Poll(rule, s, now, name, version, workerId, max).Done?
    ensures Inv(Apply(s, Poll(rule, s, now, name, version, workerId, max).writes))
  {
    var key := DefinitionKey(name, version);
    var chosen := Chosen(CandidateList(s, key), now, max);
    var claimed := Poll(rule, s, now, name, version, workerId, max).value;
    ChosenRows(s, key, now, max);
    ClaimAllKeys(rule, s.definitions[key], chosen, workerId, now);
    PollWritesApply(rule, s, now, name, version, workerId, max);
    assert forall i :: 0 <= i < |chosen| ==> StepOk(s, chosen[i]);
    ClaimedKeep(rule, s, s.definitions[key], chosen, workerId, now);
  }

  lemma ClaimedKeep(rule: LeaseRule, s: Store, d: WorkflowDefinition, rows: seq<StepExecution>, workerId: string, now: Time)
    requires Inv(s) && LeasesKnown(rule, d, rows) && DistinctKeys(rows)
    requires forall i :: 0 <= i < |rows| ==>
               KeyOfStep(rows[i]) in s.steps && s.steps[KeyOfStep(rows[i])] == rows[i] && rows[i].Open() && RowShape(rows[i])
    ensures Inv(PutSteps(s, ClaimAll(rule, d, rows, workerId, now)))
  {
    var claimed := ClaimAll(rule, d, rows, workerId, now);
    ClaimAllKeys(rule, d, rows, workerId, now);
    assert forall i :: 0 <= i < |rows| ==> KeyOfStep(claimed[i]) == KeyOfStep(rows[i]);
    PutStepsKeeps(s, rows, claimed);
  }
}
