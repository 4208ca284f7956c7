/** The lease sweep: what it does to each execution, whatever the order its query returns rows in. */
module Sweeping {
  import opened Prelude
  import opened Domain
  import opened Tables
  import opened Operations
  import opened Invariant
  import opened Preservation

  /** The current step of the execution is running on a lease that has run out. */
  predicate Due(s: Store, now: Time, id: string) {
    && id in s.executions && s.executions[id].status.Running?
    && CurrentKey(s.executions[id]) in s.steps
    && var r := s.steps[CurrentKey(s.executions[id])];
       r.status.Running? && Expired(r, now)
  }

  /** The retry bound of the step a due execution is at; None when its definition no longer declares it. */
  function DueRetries(s: Store, id: string): Option<int>
    requires id in s.executions
  {
    var e := s.executions[id];
    if WorkflowOf(e) in s.definitions then RetriesOf(s.definitions[WorkflowOf(e)], e.currentStepName) else None
  }

  /** What the sweep does to one due execution, seen on the tables before the sweep. */
  function SettleDue(s: Store, now: Time, created: map<string, Time>, id: string): Settlement
    requires Due(s, now, id) && DueRetries(s, id).Some?
  {
    var e := s.executions[id];
    Settle(e, s.steps[CurrentKey(e)], DueRetries(s, id).value, LEASE_EXPIRED, SweepClock(now, created, id))
  }

  ghost predicate AllSettle(s: Store, now: Time, ids: set<string>) {
    forall id :: id in ids ==> Due(s, now, id) && DueRetries(s, id).Some?
  }

  type Plan = map<string, Settlement>

  function PlanFor(s: Store, now: Time, created: map<string, Time>, ids: set<string>): Plan
    requires AllSettle(s, now, ids)
  {
    map id | id in ids :: SettleDue(s, now, created, id)
  }

  function Retried(plan: Plan): set<string> {
    set id | id in plan && plan[id].retried
  }

  function GivenUp(plan: Plan): set<string> {
    set id | id in plan && !plan[id].retried
  }

  /** The settlement of an execution writes that execution and step rows of its own, nothing else. */
  ghost predicate Local(id: string, x: Settlement) {
    && x.writes.definitions == map[] && x.writes.locks == map[]
    && x.writes.executions == map[id := x.execution]
    && (forall k :: k in x.writes.steps ==> k.executionId == id)
  }

  /** A plan carried out as one simultaneous change: each execution settled, nothing else written. */
  ghost predicate CarriesOut(plan: Plan, writes: Store) {
    && writes.definitions == map[] && writes.locks == map[]
    && writes.executions.Keys == plan.Keys
    && (forall id :: id in plan ==> writes.executions[id] == plan[id].execution)
    && (forall k :: k in writes.steps <==> k.executionId in plan && k in plan[k.executionId].writes.steps)
    && (forall k :: k in writes.steps ==> writes.steps[k] == plan[k.executionId].writes.steps[k])
  }

  lemma CarriesOutUnique(plan: Plan, a: Store, b: Store)
    requires CarriesOut(plan, a) && CarriesOut(plan, b)
    ensures a == b
  {
    assert a.executions == b.executions;
    assert a.steps == b.steps;
  }

  lemma SettleDueLocal(s: Store, now: Time, created: map<string, Time>, id: string)
    requires Inv(s) && Due(s, now, id) && DueRetries(s, id).Some?
    ensures Local(id, SettleDue(s, now, created, id))
  {
    var e := s.executions[id];
    assert KeyOfStep(s.steps[CurrentKey(e)]) == CurrentKey(e);
  }

  ghost predicate RunningRows(s: Store, rows: seq<StepExecution>) {
    && (forall i, j :: 0 <= i < j < |rows| ==> KeyOfStep(rows[i]) != KeyOfStep(rows[j]))
    && (forall i :: 0 <= i < |rows| ==>
          rows[i].status.Running? && KeyOfStep(rows[i]) in s.steps && s.steps[KeyOfStep(rows[i])] == rows[i])
  }

  function ExpiredIds(rows: seq<StepExecution>, now: Time): set<string> {
    set i | 0 <= i < |rows| && Expired(rows[i], now) :: rows[i].executionId
  }

  lemma RowIsCurrent(s: Store, r: StepExecution)
    requires Inv(s) && r.Open() && KeyOfStep(r) in s.steps && s.steps[KeyOfStep(r)] == r
    ensures r.executionId in s.executions && s.executions[r.executionId].status.Running?
    ensures CurrentKey(s.executions[r.executionId]) == KeyOfStep(r)
    ensures WorkflowOf(s.executions[r.executionId]) in s.definitions
  {
    assert StepOk(s, r);
    assert ExecutionOk(s, s.executions[r.executionId]);
  }

  /** The execution of a running row has no other running row, so no earlier iteration has touched it. */
  lemma RowUntouched(s: Store, now: Time, created: map<string, Time>, rows: seq<StepExecution>, writes: Store)
    requires Inv(s) && rows != [] && RunningRows(s, rows)
    requires AllSettle(s, now, ExpiredIds(rows[..|rows| - 1], now))
    requires CarriesOut(PlanFor(s, now, created, ExpiredIds(rows[..|rows| - 1], now)), writes)
    ensures rows[|rows| - 1].executionId !in ExpiredIds(rows[..|rows| - 1], now)
    ensures StillThere(s, Apply(s, writes), rows[|rows| - 1])
  {
    LastRowAlone(s, now, rows);
    PlanPassesBy(s, PlanFor(s, now, created, ExpiredIds(rows[..|rows| - 1], now)), writes, rows[|rows| - 1]);
  }

  lemma LastRowAlone(s: Store, now: Time, rows: seq<StepExecution>)
    requires Inv(s) && rows != [] && RunningRows(s, rows)
    ensures rows[|rows| - 1].executionId !in ExpiredIds(rows[..|rows| - 1], now)
  {
    var n := |rows| - 1;
    RowIsCurrent(s, rows[n]);
    forall i | 0 <= i < n ensures rows[i].executionId != rows[n].executionId {
      RowIsCurrent(s, rows[i]);
      assert KeyOfStep(rows[i]) != KeyOfStep(rows[n]);
    }
  }

  lemma PlanPassesBy(s: Store, plan: Plan, writes: Store, r: StepExecution)
    requires Inv(s) && CarriesOut(plan, writes) && r.executionId !in plan
    requires r.status.Running? && KeyOfStep(r) in s.steps && s.steps[KeyOfStep(r)] == r
    ensures StillThere(s, Apply(s, writes), r)
  {
    RowIsCurrent(s, r);
    assert KeyOfStep(r) !in writes.steps && r.executionId !in writes.executions;
  }

  lemma ExpiredIdsStep(rows: seq<StepExecution>, now: Time)
    requires rows != []
    ensures var r := rows[|rows| - 1];
            ExpiredIds(rows, now) == ExpiredIds(rows[..|rows| - 1], now) + if Expired(r, now) then {r.executionId} else {}
  {
    var front := rows[..|rows| - 1];
    forall id | id in ExpiredIds(front, now) ensures id in ExpiredIds(rows, now) {
      var i :| 0 <= i < |front| && Expired(front[i], now) && front[i].executionId == id;
      assert rows[i] == front[i];
    }
    forall id | id in ExpiredIds(rows, now)
      ensures id in ExpiredIds(front, now) || (Expired(rows[|rows| - 1], now) && id == rows[|rows| - 1].executionId)
    {
      var i :| 0 <= i < |rows| && Expired(rows[i], now) && rows[i].executionId == id;
      if i < |front| {
        assert front[i] == rows[i];
      }
    }
  }

  /** One more execution settled. */
  lemma CarriesOutOneMore(plan: Plan, writes: Store, id: string, x: Settlement)
    requires id !in plan && CarriesOut(plan, writes) && Local(id, x)
    ensures CarriesOut(plan[id := x], Apply(writes, x.writes))
  {
    var more, all := plan[id := x], Apply(writes, x.writes);
    assert all.executions.Keys == more.Keys;
    forall k: StepKey
      ensures k in all.steps <==> k.executionId in more && k in more[k.executionId].writes.steps
      ensures k in all.steps ==> all.steps[k] == more[k.executionId].writes.steps[k]
    {
      if k.executionId == id {
        assert k !in writes.steps;
      } else {
        assert k !in x.writes.steps;
      }
    }
  }

  lemma CountOneMore(plan: Plan, id: string, x: Settlement)
    requires id !in plan
    ensures |Retried(plan[id := x])| == |Retried(plan)| + if x.retried then 1 else 0
    ensures |GivenUp(plan[id := x])| == |GivenUp(plan)| + if x.retried then 0 else 1
  {
    if x.retried {
      assert Retried(plan[id := x]) == Retried(plan) + {id};
      assert GivenUp(plan[id := x]) == GivenUp(plan);
    } else {
      assert Retried(plan[id := x]) == Retried(plan);
      assert GivenUp(plan[id := x]) == GivenUp(plan) + {id};
    }
  }

  /** An outcome that carries out a plan and counts it. */
  ghost predicate Yields(o: Outcome<SweepResult>, plan: Plan) {
    && o.Done? && CarriesOut(plan, o.writes)
    && o.value.retriedCount == |Retried(plan)| && o.value.failedCount == |GivenUp(plan)|
  }

  lemma YieldsOneMore(o: Outcome<SweepResult>, plan: Plan, id: string, x: Settlement, one: Outcome<SweepResult>)
    requires Yields(o, plan) && id !in plan && Local(id, x)
    requires one == Done(if x.retried then SweepResult(1, 0) else SweepResult(0, 1), x.writes)
    ensures Yields(AndThen(o, one), plan[id := x])
  {
    CarriesOutOneMore(plan, o.writes, id, x);
    CountOneMore(plan, id, x);
  }

  /** The sweep's outcome as one simultaneous change to the executions of `ids`. */
  ghost predicate SweepsTo(s: Store, now: Time, created: map<string, Time>, ids: set<string>, o: Outcome<SweepResult>) {
    && (o.Done? <==> AllSettle(s, now, ids))
    && (o.Done? ==> Yields(o, PlanFor(s, now, created, ids)))
  }

  /** The loop over any list of distinct running rows settles the executions of the expired ones, each once
      and as the old tables say, and counts them; it throws exactly when one of them is at a step its
      definition does not declare. */
  lemma {:induction false} SweepExact(s: Store, now: Time, created: map<string, Time>, rows: seq<StepExecution>)
    requires Inv(s) && RunningRows(s, rows)
    ensures SweepsTo(s, now, created, ExpiredIds(rows, now), Sweep(s, now, created, rows))
  {
    if rows == [] {
      SweepNoRows(s, now, created);
    } else {
      var front, r := rows[..|rows| - 1], rows[|rows| - 1];
      SweepExact(s, now, created, front);
      ExpiredIdsStep(rows, now);
      var o := Sweep(s, now, created, front);
      if o.Done? {
        RowUntouched(s, now, created, rows, o.writes);
        SweepRowCases(s, Apply(s, o.writes), now, created, r);
        SweepOne(s, now, created, ExpiredIds(front, now), r, o, SweepRow(Apply(s, o.writes), now, created, r));
      }
    }
  }

  /** The loop keeps the invariant at every iteration. */
  lemma {:induction false} SweepKeeps(s: Store, now: Time, created: map<string, Time>, rows: seq<StepExecution>)
    requires Inv(s) && RunningRows(s, rows)
    ensures StaysInv(s, Sweep(s, now, created, rows))
  {
    if rows == [] {
      ApplyNothing(s);
    } else {
      var front, r := rows[..|rows| - 1], rows[|rows| - 1];
      SweepKeeps(s, now, created, front);
      if Sweep(s, now, created, front).Done? {
        LastRowStillThere(s, now, created, rows);
        SweepRowKeeps(s, now, created, r, Sweep(s, now, created, front));
      }
    }
  }

  ghost predicate StaysInv(s: Store, o: Outcome<SweepResult>) {
    o.Done? ==> Inv(Apply(s, o.writes))
  }

  lemma LastRowStillThere(s: Store, now: Time, created: map<string, Time>, rows: seq<StepExecution>)
    requires Inv(s) && RunningRows(s, rows) && rows != [] && Sweep(s, now, created, rows[..|rows| - 1]).Done?
    ensures StillThere(s, Apply(s, Sweep(s, now, created, rows[..|rows| - 1]).writes), rows[|rows| - 1])
  {
    SweepExact(s, now, created, rows[..|rows| - 1]);
    RowUntouched(s, now, created, rows, Sweep(s, now, created, rows[..|rows| - 1]).writes);
  }

  lemma SweepRowKeeps(s: Store, now: Time, created: map<string, Time>, r: StepExecution, o: Outcome<SweepResult>)
    requires Inv(s) && o.Done? && StaysInv(s, o) && StillThere(s, Apply(s, o.writes), r)
    ensures StaysInv(s, AndThen(o, SweepRow(Apply(s, o.writes), now, created, r)))
  {
    var view := Apply(s, o.writes);
    var one := SweepRow(view, now, created, r);
    SweepRowCases(s, view, now, created, r);
    if one.Done? {
      if Expired(r, now) {
        SettledKeeps(s, view, now, created, r);
      } else {
        ApplyNothing(view);
      }
      AndThenStays(s, o, one);
    }
  }

  lemma AndThenStays(s: Store, o: Outcome<SweepResult>, one: Outcome<SweepResult>)
    requires o.Done? && one.Done? && Inv(Apply(Apply(s, o.writes), one.writes))
    ensures StaysInv(s, AndThen(o, one))
  {
    ApplyAssociative(s, o.writes, one.writes);
  }

  lemma SettledKeeps(s: Store, view: Store, now: Time, created: map<string, Time>, r: StepExecution)
    requires Inv(s) && Inv(view) && StillThere(s, view, r) && Due(s, now, r.executionId) && DueRetries(s, r.executionId).Some?
    ensures Inv(Apply(view, SettleDue(s, now, created, r.executionId).writes))
  {
    RowIsCurrent(s, r);
    SettleKeeps(view, s.executions[r.executionId], r, DueRetries(s, r.executionId).value, LEASE_EXPIRED,
                SweepClock(now, created, r.executionId));
  }

  lemma SweepNoRows(s: Store, now: Time, created: map<string, Time>)
    requires Inv(s)
    ensures SweepsTo(s, now, created, {}, Done(SweepResult(0, 0), EMPTY))
    ensures ExpiredIds([], now) == {}
  {
    ApplyNothing(s);
    assert Retried(map[]) == {} && GivenUp(map[]) == {};
  }

  /** The tables an iteration sees still hold its row and its execution as they were. */
  ghost predicate StillThere(s: Store, view: Store, r: StepExecution) {
    && view.definitions == s.definitions
    && r.executionId in s.executions && r.executionId in view.executions
    && view.executions[r.executionId] == s.executions[r.executionId]
    && KeyOfStep(r) in s.steps && s.steps[KeyOfStep(r)] == r
    && KeyOfStep(r) in view.steps && view.steps[KeyOfStep(r)] == r
    && r.status.Running?
  }

  /** An iteration passes over a row with time left, settles an expired one, or throws. */
  ghost predicate SweptOne(s: Store, now: Time, created: map<string, Time>, r: StepExecution, one: Outcome<SweepResult>) {
    if !Expired(r, now) then one == Done(SweepResult(0, 0), EMPTY)
    else
      && Due(s, now, r.executionId)
      && if DueRetries(s, r.executionId).None? then one == Thrown
         else
           var x := SettleDue(s, now, created, r.executionId);
           one == Done(if x.retried then SweepResult(1, 0) else SweepResult(0, 1), x.writes)
  }

  lemma SweepRowCases(s: Store, view: Store, now: Time, created: map<string, Time>, r: StepExecution)
    requires Inv(s) && StillThere(s, view, r)
    ensures SweptOne(s, now, created, r, SweepRow(view, now, created, r))
  {
    RowIsCurrent(s, r);
  }

  /** One iteration of the loop, on the tables the earlier ones left. */
  lemma SweepOne(s: Store, now: Time, created: map<string, Time>, before: set<string>, r: StepExecution, o: Outcome<SweepResult>,
                 one: Outcome<SweepResult>)
    requires Inv(s) && o.Done? && SweepsTo(s, now, created, before, o) && r.executionId !in before
    requires SweptOne(s, now, created, r, one)
    ensures SweepsTo(s, now, created, before + (if Expired(r, now) then {r.executionId} else {}), AndThen(o, one))
  {
    if !Expired(r, now) {
      AndThenNothing(o);
      assert before + {} == before;
    } else if DueRetries(s, r.executionId).Some? {
      SweepSettles(s, now, created, before, r, o, one);
    } else {
      SweepBlocked(s, now, created, before, r.executionId);
    }
  }

  lemma AndThenNothing(o: Outcome<SweepResult>)
    requires o.Done?
    ensures AndThen(o, Done(SweepResult(0, 0), EMPTY)) == o
  {
    ApplyNothing(o.writes);
  }

  lemma SweepBlocked(s: Store, now: Time, created: map<string, Time>, before: set<string>, id: string)
    requires Due(s, now, id) && DueRetries(s, id).None?
    ensures SweepsTo(s, now, created, before + {id}, Thrown)
  {
    assert id in before + {id};
  }

  lemma SweepSettles(s: Store, now: Time, created: map<string, Time>, before: set<string>, r: StepExecution, o: Outcome<SweepResult>,
                     one: Outcome<SweepResult>)
    requires Inv(s) && o.Done? && SweepsTo(s, now, created, before, o) && r.executionId !in before
    requires Due(s, now, r.executionId) && DueRetries(s, r.executionId).Some?
    requires var x := SettleDue(s, now, created, r.executionId);
             one == Done(if x.retried then SweepResult(1, 0) else SweepResult(0, 1), x.writes)
    ensures SweepsTo(s, now, created, before + {r.executionId}, AndThen(o, one))
  {
    var id := r.executionId;
    var x := SettleDue(s, now, created, id);
    SettleDueLocal(s, now, created, id);
    YieldsOneMore(o, PlanFor(s, now, created, before), id, x, one);
    PlanOneMore(s, now, created, before, id);
  }

  lemma PlanOneMore(s: Store, now: Time, created: map<string, Time>, ids: set<string>, id: string)
    requires AllSettle(s, now, ids) && Due(s, now, id) && DueRetries(s, id).Some?
    ensures AllSettle(s, now, ids + {id})
    ensures PlanFor(s, now, created, ids + {id}) == PlanFor(s, now, created, ids)[id := SettleDue(s, now, created, id)]
  {
  }

  /** Every execution whose current step is running on an expired lease. */
  ghost function DueIds(s: Store, now: Time): set<string> {
    set id | id in s.executions && Due(s, now, id)
  }

  ghost function ExpiredRows(s: Store, now: Time): set<StepKey> {
    set k | k in s.steps && s.steps[k].status.Running? && Expired(s.steps[k], now)
  }

  lemma EnumerationCovers(s: Store, now: Time, rows: seq<StepExecution>)
    requires Inv(s) && Enumerates(rows, Select(s, ByStatus(StepStatus.Running)))
    ensures RunningRows(s, rows)
    ensures ExpiredIds(rows, now) == DueIds(s, now)
  {
    var selected := Select(s, ByStatus(StepStatus.Running));
    assert forall i :: 0 <= i < |rows| ==> KeyOfStep(rows[i]) in selected;
    forall id | id in ExpiredIds(rows, now) ensures id in DueIds(s, now) {
      var i :| 0 <= i < |rows| && Expired(rows[i], now) && rows[i].executionId == id;
      RowIsCurrent(s, rows[i]);
    }
    forall id | id in DueIds(s, now) ensures id in ExpiredIds(rows, now) {
      var k := CurrentKey(s.executions[id]);
      assert k in selected && selected[k] in rows;
    }
  }

  /** The number of executions settled is the number of running rows whose lease has run out. */
  lemma ExpiredRowsAreDue(s: Store, now: Time)
    requires Inv(s)
    ensures |ExpiredRows(s, now)| == |DueIds(s, now)|
  {
    var rows, ids := ExpiredRows(s, now), DueIds(s, now);
    forall k | k in rows ensures k.executionId in ids && CurrentKey(s.executions[k.executionId]) == k {
      RowIsCurrent(s, s.steps[k]);
    }
    assert forall id :: id in ids ==> CurrentKey(s.executions[id]) in rows && CurrentKey(s.executions[id]).executionId == id;
    SameSize(s, rows, ids);
  }

  lemma {:induction false} SameSize(s: Store, rows: set<StepKey>, ids: set<string>)
    requires forall k :: k in rows ==> k.executionId in ids && k.executionId in s.executions && CurrentKey(s.executions[k.executionId]) == k
    requires forall id :: id in ids ==> id in s.executions && CurrentKey(s.executions[id]) in rows && CurrentKey(s.executions[id]).executionId == id
    ensures |rows| == |ids|
    decreases ids
  {
    if ids == {} {
      assert rows == {};
    } else {
      var id :| id in ids;
      var k := CurrentKey(s.executions[id]);
      SameSize(s, rows - {k}, ids - {id});
    }
  }

  /** What a sweep does, for the whole table. */
  lemma SweepIsPlan(s: Store, now: Time, created: map<string, Time>, rows: seq<StepExecution>)
    requires Inv(s) && Enumerates(rows, Select(s, ByStatus(StepStatus.Running)))
    ensures SweepsTo(s, now, created, DueIds(s, now), Sweep(s, now, created, rows))
  {
    EnumerationCovers(s, now, rows);
    SweepExact(s, now, created, rows);
  }

  /** A sweep throws exactly when some due execution is at a step its definition does not declare; otherwise
      its writes and counts are fixed by the tables alone, whatever order the query returned the rows in. */
  lemma SweepOrderFree(s: Store, now: Time, created: map<string, Time>, rows: seq<StepExecution>, other: seq<StepExecution>)
    requires Inv(s)
    requires Enumerates(rows, Select(s, ByStatus(StepStatus.Running))) && Enumerates(other, Select(s, ByStatus(StepStatus.Running)))
    ensures Sweep(s, now, created, rows) == Sweep(s, now, created, other)
    ensures Sweep(s, now, created, rows).Done? <==> AllSettle(s, now, DueIds(s, now))
  {
    SweepIsPlan(s, now, created, rows);
    SweepIsPlan(s, now, created, other);
    if AllSettle(s, now, DueIds(s, now)) {
      CarriesOutUnique(PlanFor(s, now, created, DueIds(s, now)),
                       Sweep(s, now, created, rows).writes, Sweep(s, now, created, other).writes);
    }
  }

  lemma YieldsAll(o: Outcome<SweepResult>, plan: Plan, ids: set<string>)
    requires Yields(o, plan) && plan.Keys == ids
    ensures o.value.retriedCount + o.value.failedCount == |ids|
  {
    assert ids == Retried(plan) + GivenUp(plan);
  }

  /** The counts add up to the running rows whose lease has run out. */
  lemma SweepCounts(s: Store, now: Time, created: map<string, Time>, rows: seq<StepExecution>)
    requires Inv(s) && Enumerates(rows, Select(s, ByStatus(StepStatus.Running)))
    requires Sweep(s, now, created, rows).Done?
    ensures var result := Sweep(s, now, created, rows).value;
            result.retriedCount + result.failedCount == |ExpiredRows(s, now)|
  {
    SweepIsPlan(s, now, created, rows);
    CountsDue(s, now, created, Sweep(s, now, created, rows));
    ExpiredRowsAreDue(s, now);
  }

  lemma CountsDue(s: Store, now: Time, created: map<string, Time>, o: Outcome<SweepResult>)
    requires o.Done? && SweepsTo(s, now, created, DueIds(s, now), o)
    ensures o.value.retriedCount + o.value.failedCount == |DueIds(s, now)|
  {
    YieldsAll(o, PlanFor(s, now, created, DueIds(s, now)), DueIds(s, now));
  }

  /** The two tables hold the same step rows for an execution. */
  ghost predicate SameRows(s: Store, t: Store, id: string) {
    forall k: StepKey :: k.executionId == id ==> Lookup(s.steps, k) == Lookup(t.steps, k)
  }

  ghost predicate SweptAs(s: Store, t: Store, now: Time, created: map<string, Time>, id: string)
    requires id in s.executions
  {
    && id in t.executions
    && if Due(s, now, id) then
         DueRetries(s, id).Some?
         && t.executions[id] == SettleDue(s, now, created, id).execution
         && SameRows(Apply(s, SettleDue(s, now, created, id).writes), t, id)
       else
         t.executions[id] == s.executions[id] && SameRows(s, t, id)
  }

  /** Each execution after a sweep: untouched unless due; retried below the bound of its step, failed at it. */
  lemma SweptExecution(s: Store, now: Time, created: map<string, Time>, rows: seq<StepExecution>, id: string)
    requires Inv(s) && Enumerates(rows, Select(s, ByStatus(StepStatus.Running)))
    requires Sweep(s, now, created, rows).Done? && id in s.executions
    ensures SweptAs(s, Apply(s, Sweep(s, now, created, rows).writes), now, created, id)
  {
    SweepIsPlan(s, now, created, rows);
    SweptFromPlan(s, now, created, Sweep(s, now, created, rows).writes, id);
  }

  lemma SweptFromPlan(s: Store, now: Time, created: map<string, Time>, w: Store, id: string)
    requires AllSettle(s, now, DueIds(s, now)) && CarriesOut(PlanFor(s, now, created, DueIds(s, now)), w)
    requires id in s.executions
    ensures SweptAs(s, Apply(s, w), now, created, id)
  {
    var plan := PlanFor(s, now, created, DueIds(s, now));
    if Due(s, now, id) {
      assert plan[id] == SettleDue(s, now, created, id);
      CarriedOut(s, plan, w, id);
    } else {
      CarriedPast(s, plan, w, id);
    }
  }

  lemma CarriedOut(s: Store, plan: Plan, w: Store, id: string)
    requires id in plan && CarriesOut(plan, w)
    ensures id in Apply(s, w).executions && Apply(s, w).executions[id] == plan[id].execution
    ensures SameRows(Apply(s, plan[id].writes), Apply(s, w), id)
  {
    forall k: StepKey | k.executionId == id
      ensures Lookup(Apply(s, plan[id].writes).steps, k) == Lookup(Apply(s, w).steps, k)
    {
      assert k in w.steps <==> k in plan[id].writes.steps;
    }
  }

  lemma CarriedPast(s: Store, plan: Plan, w: Store, id: string)
    requires id in s.executions && id !in plan && CarriesOut(plan, w)
    ensures Apply(s, w).executions[id] == s.executions[id] && SameRows(s, Apply(s, w), id)
  {
    forall k: StepKey | k.executionId == id ensures k !in w.steps {
    }
  }

  /** After a sweep no running row has a lease that had run out. */
  lemma SweepLeavesNoneDue(s: Store, now: Time, created: map<string, Time>, rows: seq<StepExecution>)
    requires Inv(s) && Enumerates(rows, Select(s, ByStatus(StepStatus.Running)))
    requires Sweep(s, now, created, rows).Done?
    ensures var t := Apply(s, Sweep(s, now, created, rows).writes);
            Inv(t) && DueIds(t, now) == {}
  {
    EnumerationCovers(s, now, rows);
    SweepKeeps(s, now, created, rows);
    forall id | id in s.executions ensures !Due(Apply(s, Sweep(s, now, created, rows).writes), now, id) {
      SweptExecution(s, now, created, rows, id);
      NotDueAfter(s, Apply(s, Sweep(s, now, created, rows).writes), now, created, id);
    }
    SweepAddsNoExecution(s, now, created, rows);
  }

  lemma SweepAddsNoExecution(s: Store, now: Time, created: map<string, Time>, rows: seq<StepExecution>)
    requires Inv(s) && Enumerates(rows, Select(s, ByStatus(StepStatus.Running)))
    requires Sweep(s, now, created, rows).Done?
    ensures Apply(s, Sweep(s, now, created, rows).writes).executions.Keys == s.executions.Keys
  {
    SweepIsPlan(s, now, created, rows);
    assert Sweep(s, now, created, rows).writes.executions.Keys == DueIds(s, now);
  }

  lemma NotDueAfter(s: Store, t: Store, now: Time, created: map<string, Time>, id: string)
    requires Inv(s) && id in s.executions && SweptAs(s, t, now, created, id)
    ensures !Due(t, now, id)
  {
    assert ExecutionOk(s, s.executions[id]);
    if Due(s, now, id) {
      SettledNotDue(s, t, now, created, id);
    } else {
      assert Lookup(t.steps, CurrentKey(t.executions[id])) == Lookup(s.steps, CurrentKey(t.executions[id]));
    }
  }

  /** What is settled is over, or at a row that is not running. */
  lemma SettledNotDue(s: Store, t: Store, now: Time, created: map<string, Time>, id: string)
    requires Inv(s) && Due(s, now, id) && SweptAs(s, t, now, created, id)
    ensures !Due(t, now, id)
  {
    var x := SettleDue(s, now, created, id);
    var k := CurrentKey(x.execution);
    assert x.retried ==> k in x.writes.steps && !x.writes.steps[k].status.Running?;
    assert Lookup(t.steps, k) == Lookup(Apply(s, x.writes).steps, k);
  }

  /** A second sweep at the same time counts nothing and writes nothing. */
  lemma SweepTwice(s: Store, now: Time, created: map<string, Time>, rows: seq<StepExecution>,
                   created': map<string, Time>, rows': seq<StepExecution>)
    requires Inv(s) && Enumerates(rows, Select(s, ByStatus(StepStatus.Running)))
    requires Sweep(s, now, created, rows).Done?
    requires Enumerates(rows', Select(Apply(s, Sweep(s, now, created, rows).writes), ByStatus(StepStatus.Running)))
    ensures Sweep(Apply(s, Sweep(s, now, created, rows).writes), now, created', rows') == Done(SweepResult(0, 0), EMPTY)
  {
    var t := Apply(s, Sweep(s, now, created, rows).writes);
    SweepLeavesNoneDue(s, now, created, rows);
    NothingDue(t, now, created', rows');
  }

  lemma NothingDue(t: Store, now: Time, created: map<string, Time>, rows: seq<StepExecution>)
    requires Inv(t) && Enumerates(rows, Select(t, ByStatus(StepStatus.Running))) && DueIds(t, now) == {}
    ensures Sweep(t, now, created, rows) == Done(SweepResult(0, 0), EMPTY)
  {
    SweepIsPlan(t, now, created, rows);
    assert PlanFor(t, now, created, {}) == map[];
    assert Retried(map[]) == {} && GivenUp(map[]) == {};
    CarriesOutUnique(map[], Sweep(t, now, created, rows).writes, EMPTY);
  }
}
