/** What each operation has to read, and that nothing else can change what it does. */
module Footprints {
  import opened Prelude
  import opened JsonValue
  import opened Domain
  import opened Tables
  import opened Operations
  import opened Candidates

  function StartReads(s: Store, name: string, version: int): set<Read> {
    var key := DefinitionKey(name, version);
    {DefinitionRow(key)}
    + (if key in s.definitions && s.definitions[key].singleton then {LockRow(key)} else {})
    + (if key in s.definitions && s.definitions[key].singleton && key in s.locks
       then {ExecutionRow(s.locks[key].executionId)} else {})
  }

  /** The rows behind a claim check. */
  function ClaimReads(s: Store, id: string, stepName: string): set<Read> {
    if id !in s.executions then {}
    else
      var e := s.executions[id];
      {ExecutionRow(id), DefinitionRow(WorkflowOf(e)), StepRow(StepKey(id, stepName, e.currentStepAttempt))}
  }

  function PollReads(name: string, version: int): set<Read> {
    {DefinitionRow(DefinitionKey(name, version)),
     StepQuery(ByWorkflow(name, version, StepStatus.Pending)),
     StepQuery(ByWorkflow(name, version, StepStatus.Running))}
  }

  function CancelReads(id: string): set<Read> {
    {ExecutionRow(id), StepQuery(ByExecution(id))}
  }

  function SweepRowReads(s: Store, now: Time, r: StepExecution): set<Read> {
    if !Expired(r, now) then {}
    else
      {ExecutionRow(r.executionId)}
      + if r.executionId !in s.executions then {}
        else
          var e := s.executions[r.executionId];
          if e.status.Running? && e.currentStepName == r.stepName && e.currentStepAttempt == r.attempt
          then {DefinitionRow(WorkflowOf(e))} else {}
  }

  function SweepRowsReads(s: Store, now: Time, created: map<string, Time>, rows: seq<StepExecution>): set<Read> {
    if rows == [] then {}
    else
      var front, last := rows[..|rows| - 1], rows[|rows| - 1];
      var sofar := Sweep(s, now, created, front);
      SweepRowsReads(s, now, created, front)
      + if sofar.Thrown? then {} else SweepRowReads(Apply(s, sofar.writes), now, last)
  }

  function SweepReads(s: Store, now: Time, created: map<string, Time>, rows: seq<StepExecution>): set<Read> {
    {StepQuery(ByStatus(StepStatus.Running))} + SweepRowsReads(s, now, created, rows)
  }

  lemma StartFootprint(s: Store, t: Store, clock: Clock, id: string, name: string, version: int, input: Json)
    requires Start(s, clock, id, name, version, input).Done? && Agree(s, t, StartReads(s, name, version))
    ensures Start(t, clock, id, name, version, input) == Start(s, clock, id, name, version, input)
  {
    var key := DefinitionKey(name, version);
    assert Same(s, t, DefinitionRow(key));
    if s.definitions[key].singleton {
      assert Same(s, t, LockRow(key));
      if key in s.locks {
        assert Same(s, t, ExecutionRow(s.locks[key].executionId));
      }
    }
  }

  lemma ClaimFootprint(s: Store, t: Store, id: string, stepName: string, workerId: string, now: Time)
    requires Owned(s, id, stepName, workerId, now).Some? && Agree(s, t, ClaimReads(s, id, stepName))
    ensures Owned(t, id, stepName, workerId, now) == Owned(s, id, stepName, workerId, now)
  {
    var e := s.executions[id];
    assert Same(s, t, ExecutionRow(id));
    assert Same(s, t, DefinitionRow(WorkflowOf(e)));
    assert Same(s, t, StepRow(StepKey(id, stepName, e.currentStepAttempt)));
  }

  /** A poll sees the same candidates in two stores that answer its two queries alike. */
  lemma PollFootprint(rule: LeaseRule, s: Store, t: Store, now: Time, name: string, version: int, workerId: string, max: nat)
    requires Keyed(s) && Keyed(t) && Agree(s, t, PollReads(name, version))
    ensures Poll(rule, t, now, name, version, workerId, max) == Poll(rule, s, now, name, version, workerId, max)
  {
    var key := DefinitionKey(name, version);
    assert Same(s, t, DefinitionRow(key));
    assert OpenRows(s, key) == OpenRows(t, key) by {
      OpenRowsFromQueries(s, t, key);
      OpenRowsFromQueries(t, s, key);
    }
  }

  lemma OpenRowsFromQueries(s: Store, t: Store, key: DefinitionKey)
    requires Same(s, t, StepQuery(ByWorkflow(key.name, key.version, StepStatus.Pending)))
    requires Same(s, t, StepQuery(ByWorkflow(key.name, key.version, StepStatus.Running)))
    ensures OpenRows(s, key) <= OpenRows(t, key)
  {
    forall r | r in OpenRows(s, key) ensures r in OpenRows(t, key) {
      var k :| k in s.steps && WorkflowKey(s.steps[k]) == key && s.steps[k].Open() && s.steps[k] == r;
      assert k in Select(s, ByWorkflow(key.name, key.version, r.status));
      assert k in Select(t, ByWorkflow(key.name, key.version, r.status));
      assert Select(s, ByWorkflow(key.name, key.version, r.status))[k] == Select(t, ByWorkflow(key.name, key.version, r.status))[k];
    }
  }

  lemma CancelFootprint(s: Store, t: Store, now: Time, id: string)
    requires Keyed(s) && Keyed(t) && Agree(s, t, CancelReads(id))
    ensures Cancel(t, now, id) == Cancel(s, now, id)
  {
    assert Same(s, t, ExecutionRow(id));
    assert Same(s, t, StepQuery(ByExecution(id)));
    var a, b := Cancel(s, now, id), Cancel(t, now, id);
    if a.Done? {
      assert forall k :: k in s.steps && s.steps[k].executionId == id <==> k in Select(s, ByExecution(id));
      assert forall k :: k in t.steps && t.steps[k].executionId == id <==> k in Select(t, ByExecution(id));
      assert forall k :: k in Select(s, ByExecution(id)) ==> s.steps[k] == Select(t, ByExecution(id))[k];
      assert a.writes.steps == b.writes.steps;
    }
  }

  lemma SweepRowFootprint(s: Store, t: Store, now: Time, created: map<string, Time>, r: StepExecution)
    requires Agree(s, t, SweepRowReads(s, now, r))
    ensures SweepRow(t, now, created, r) == SweepRow(s, now, created, r)
  {
    if Expired(r, now) {
      assert Same(s, t, ExecutionRow(r.executionId));
      if r.executionId in s.executions {
        var e := s.executions[r.executionId];
        if e.status.Running? && e.currentStepName == r.stepName && e.currentStepAttempt == r.attempt {
          assert Same(s, t, DefinitionRow(WorkflowOf(e)));
        }
      }
    }
  }

  lemma {:induction false} SweepFootprint(s: Store, t: Store, now: Time, created: map<string, Time>, rows: seq<StepExecution>)
    requires Sweep(s, now, created, rows).Done? && Agree(s, t, SweepRowsReads(s, now, created, rows))
    ensures Sweep(t, now, created, rows) == Sweep(s, now, created, rows)
  {
    if rows != [] {
      var front, last := rows[..|rows| - 1], rows[|rows| - 1];
      var o := Sweep(s, now, created, front);
      SweepFootprint(s, t, now, created, front);
      SweepWritesNoDefinition(s, now, created, front);
      StillAgree(s, t, o.writes, SweepRowReads(Apply(s, o.writes), now, last));
      SweepRowFootprint(Apply(s, o.writes), Apply(t, o.writes), now, created, last);
    }
  }

  /** Tables that agree still do when the same changes are made to both. */
  lemma StillAgree(s: Store, t: Store, w: Store, observed: set<Read>)
    requires Agree(s, t, observed) && forall x :: x in observed ==> x.DefinitionRow? || x.ExecutionRow?
    ensures Agree(Apply(s, w), Apply(t, w), observed)
  {
    forall x | x in observed ensures Same(Apply(s, w), Apply(t, w), x) {
      assert Same(s, t, x);
    }
  }

  lemma {:induction false} SweepWritesNoDefinition(s: Store, now: Time, created: map<string, Time>, rows: seq<StepExecution>)
    requires Sweep(s, now, created, rows).Done?
    ensures Sweep(s, now, created, rows).writes.definitions == map[]
  {
    if rows != [] {
      var front := rows[..|rows| - 1];
      SweepWritesNoDefinition(s, now, created, front);
      RowWritesNoDefinition(Apply(s, Sweep(s, now, created, front).writes), now, created, rows[|rows| - 1]);
    }
  }

  lemma RowWritesNoDefinition(s: Store, now: Time, created: map<string, Time>, r: StepExecution)
    requires SweepRow(s, now, created, r).Done?
    ensures SweepRow(s, now, created, r).writes.definitions == map[]
  {
  }
}
