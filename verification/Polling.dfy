/** What a poll hands out, and that no running execution is left behind for good. */
module Polling {
  import opened Prelude
  import opened JsonValue
  import opened Domain
  import opened Tables
  import opened Operations
  import opened Candidates
  import opened Invariant
  import opened Preservation
  import opened Sweeping
  import opened Runs
  import opened Singletons

  /** The rows of a workflow that can be claimed at a time. */
  function Claimable(s: Store, key: DefinitionKey, now: Time): set<StepExecution> {
    set k | k in s.steps && WorkflowKey(s.steps[k]) == key && IsClaimable(s.steps[k], now) :: s.steps[k]
  }

  /** `list` is the first `max` elements, in order, of a set of rows. */
  ghost predicate FirstOf(list: seq<StepExecution>, rows: set<StepExecution>, max: nat) {
    && Sorted(list)
    && (forall r :: r in list ==> r in rows)
    && |list| == (if |rows| < max then |rows| else max)
    && (forall r :: r in rows && r !in list ==> forall i :: 0 <= i < |list| ==> Before(list[i], r))
  }

  lemma ElementsOfSorted(list: seq<StepExecution>)
    requires Sorted(list)
    ensures |set r | r in list| == |list|
  {
    if list != [] {
      var rest := list[1..];
      ElementsOfSorted(rest);
      assert (set r | r in list) == {list[0]} + set r | r in rest;
      if list[0] in rest {
        assert Before(list[0], list[0]);
        BeforeIrreflexive(list[0]);
      }
    }
  }

  lemma {:induction false} ChosenComplete(rows: seq<StepExecution>, now: Time, max: nat)
    requires Sorted(rows)
    ensures forall r :: r in rows && IsClaimable(r, now) && r !in Chosen(rows, now, max) ==>
              |Chosen(rows, now, max)| == max && forall i :: 0 <= i < max ==> Before(Chosen(rows, now, max)[i], r)
  {
    if rows != [] && max != 0 {
      var m := if IsClaimable(rows[0], now) then max - 1 else max;
      var all, rest := Chosen(rows, now, max), Chosen(rows[1..], now, m);
      ChosenComplete(rows[1..], now, m);
      forall r | r in rows && IsClaimable(r, now) && r !in all
        ensures |all| == max && forall i :: 0 <= i < max ==> Before(all[i], r)
      {
        assert r in rows[1..] && r !in rest;
        assert Before(rows[0], r);
      }
    }
  }

  /** What a poll chooses is the first `max` claimable rows of the workflow. */
  lemma ChosenIsFirst(s: Store, key: DefinitionKey, now: Time, max: nat)
    requires Keyed(s)
    ensures FirstOf(Chosen(CandidateList(s, key), now, max), Claimable(s, key, now), max)
  {
    var list, claimable := CandidateList(s, key), Claimable(s, key, now);
    var chosen := Chosen(list, now, max);
    ChosenRows(s, key, now, max);
    ChosenAmong(list, now, max);
    ChosenComplete(list, now, max);
    forall r | r in claimable ensures r in list {
      assert r in OpenRows(s, key);
    }
    forall r | r in chosen ensures r in claimable {
      assert r in OpenRows(s, key);
    }
    ElementsOfSorted(chosen);
    var taken := set r | r in chosen;
    assert taken <= claimable;
    if r :| r in claimable && r !in chosen {
      CardinalityOfSubset(taken, claimable);
    } else {
      assert taken == claimable;
    }
  }

  lemma CardinalityOfSubset<T>(a: set<T>, b: set<T>)
    requires a <= b
    ensures |a| <= |b|
  {
    assert b == a + (b - a);
  }

  /** The row as it was before it was claimed. */
  function Unclaimed(s: Store, r: StepExecution): StepExecution {
    if KeyOfStep(r) in s.steps then s.steps[KeyOfStep(r)] else r
  }

  function AllUnclaimed(s: Store, rows: seq<StepExecution>): seq<StepExecution> {
    seq(|rows|, i requires 0 <= i < |rows| => Unclaimed(s, rows[i]))
  }

  /** The row is the current step of a running execution, now running for the worker until the lease of its
      step is up, and otherwise as it was. */
  ghost predicate ClaimedFor(rule: LeaseRule, s: Store, now: Time, key: DefinitionKey, workerId: string, r: StepExecution)
    requires key in s.definitions
  {
    && RunningAt(s, key, r.executionId) && KeyOfStep(r) == CurrentKey(s.executions[r.executionId])
    && LeaseOf(rule, s.definitions[key], r.stepName).Some?
    && r == ClaimedRow(Unclaimed(s, r), workerId, now, LeaseOf(rule, s.definitions[key], r.stepName).value)
  }

  /** The rows as they were are the first `max` claimable ones of the workflow, in order, none passed over, and
      each is claimed for the worker. */
  ghost predicate HandedOut(rule: LeaseRule, s: Store, now: Time, key: DefinitionKey, workerId: string, max: nat, rows: seq<StepExecution>)
    requires key in s.definitions
  {
    && FirstOf(AllUnclaimed(s, rows), Claimable(s, key, now), max)
    && forall i :: 0 <= i < |rows| ==> ClaimedFor(rule, s, now, key, workerId, rows[i])
  }

  /** What a poll that does not throw returns. */
  lemma PollReturnsFirst(rule: LeaseRule, s: Store, now: Time, name: string, version: int, workerId: string, max: nat)
    requires Inv(s) && Poll(rule, s, now, name, version, workerId, max).Done?
    ensures DefinitionKey(name, version) in s.definitions
    ensures HandedOut(rule, s, now, DefinitionKey(name, version), workerId, max, Poll(rule, s, now, name, version, workerId, max).value)
  {
    var key := DefinitionKey(name, version);
    var chosen := Chosen(CandidateList(s, key), now, max);
    ChosenRows(s, key, now, max);
    ChosenIsFirst(s, key, now, max);
    ChosenHandedOut(rule, s, now, key, workerId, max, chosen, Poll(rule, s, now, name, version, workerId, max).value);
  }

  lemma ChosenHandedOut(rule: LeaseRule, s: Store, now: Time, key: DefinitionKey, workerId: string, max: nat,
                        chosen: seq<StepExecution>, claimed: seq<StepExecution>)
    requires Inv(s) && key in s.definitions && LeasesKnown(rule, s.definitions[key], chosen)
    requires claimed == ClaimAll(rule, s.definitions[key], chosen, workerId, now)
    requires FirstOf(chosen, Claimable(s, key, now), max)
    requires forall i :: 0 <= i < |chosen| ==>
               var k := KeyOfStep(chosen[i]);
               k in s.steps && s.steps[k] == chosen[i] && chosen[i].Open() && WorkflowKey(chosen[i]) == key
    ensures HandedOut(rule, s, now, key, workerId, max, claimed)
  {
    forall i | 0 <= i < |claimed|
      ensures Unclaimed(s, claimed[i]) == chosen[i] && ClaimedFor(rule, s, now, key, workerId, claimed[i])
    {
      ChosenIsCurrent(s, key, chosen[i]);
      assert KeyOfStep(claimed[i]) == KeyOfStep(chosen[i]);
    }
    assert AllUnclaimed(s, claimed) == chosen;
  }

  lemma ChosenIsCurrent(s: Store, key: DefinitionKey, r: StepExecution)
    requires Inv(s) && KeyOfStep(r) in s.steps && s.steps[KeyOfStep(r)] == r && r.Open() && WorkflowKey(r) == key
    ensures RunningAt(s, key, r.executionId) && KeyOfStep(r) == CurrentKey(s.executions[r.executionId])
  {
    RowIsCurrent(s, r);
    assert StepOk(s, r);
  }

  /** Oldest first: a claimable row that a poll does not return is not older than any row it does. */
  lemma OldestFirst(rule: LeaseRule, s: Store, now: Time, name: string, version: int, workerId: string, max: nat, r: StepExecution, i: nat)
    requires Inv(s) && Poll(rule, s, now, name, version, workerId, max).Done?
    requires r in Claimable(s, DefinitionKey(name, version), now) && i < |Poll(rule, s, now, name, version, workerId, max).value|
    requires forall j :: 0 <= j < |Poll(rule, s, now, name, version, workerId, max).value| ==>
               KeyOfStep(Poll(rule, s, now, name, version, workerId, max).value[j]) != KeyOfStep(r)
    ensures var claimed := Poll(rule, s, now, name, version, workerId, max).value;
            && |claimed| == max
            && (claimed[i].createdAt.Some? && r.createdAt.Some? ==> claimed[i].createdAt.value <= r.createdAt.value)
  {
    var key, claimed := DefinitionKey(name, version), Poll(rule, s, now, name, version, workerId, max).value;
    PollReturnsFirst(rule, s, now, name, version, workerId, max);
    NotReturned(rule, s, now, key, workerId, max, claimed, r);
    assert Before(AllUnclaimed(s, claimed)[i], r);
    assert ClaimedFor(rule, s, now, key, workerId, claimed[i]);
  }

  lemma NotReturned(rule: LeaseRule, s: Store, now: Time, key: DefinitionKey, workerId: string, max: nat,
                    claimed: seq<StepExecution>, r: StepExecution)
    requires Keyed(s) && key in s.definitions && HandedOut(rule, s, now, key, workerId, max, claimed) && r in Claimable(s, key, now)
    requires forall j :: 0 <= j < |claimed| ==> KeyOfStep(claimed[j]) != KeyOfStep(r)
    ensures r !in AllUnclaimed(s, claimed) && |claimed| == max
  {
    var rows := AllUnclaimed(s, claimed);
    forall j | 0 <= j < |claimed| ensures rows[j] != r {
      assert ClaimedFor(rule, s, now, key, workerId, claimed[j]);
      assert KeyOfStep(rows[j]) == KeyOfStep(claimed[j]);
    }
    ElementsOfSorted(rows);
    var taken := set x | x in rows;
    CardinalityOfSubset(taken, Claimable(s, key, now) - {r});
  }

  /* ---- nothing is left behind ---- */

  /** The poll's caller gets the current step of the execution. */
  ghost predicate Claims(rule: LeaseRule, s: Store, now: Time, key: DefinitionKey, workerId: string, max: nat, id: string)
    requires Inv(s) && RunningAt(s, key, id)
  {
    var o := Poll(rule, s, now, key.name, key.version, workerId, max);
    o.Done? && exists i :: 0 <= i < |o.value| && KeyOfStep(o.value[i]) == CurrentKey(s.executions[id])
  }

  /** Every running execution of the workflow is at a step with a usable expected time. */
  ghost predicate LeasesReady(rule: LeaseRule, s: Store, key: DefinitionKey)
    requires key in s.definitions
  {
    forall id :: RunningAt(s, key, id) ==> LeaseOf(rule, s.definitions[key], s.executions[id].currentStepName).Some?
  }

  /** A poll from `now` on that asks for enough rows gets the execution's current step. */
  ghost predicate ServedFrom(rule: LeaseRule, s: Store, key: DefinitionKey, id: string, now: Time)
    requires Inv(s) && RunningAt(s, key, id)
  {
    forall t: Time, workerId: string, max: nat ::
      t >= now && workerId != "" && max > 0 && |Claimable(s, key, t)| <= max ==> Claims(rule, s, t, key, workerId, max, id)
  }

  /** A time from which the row can be claimed. */
  function WakeTime(r: StepExecution): Time {
    if r.status.Pending? then (if r.scheduledAt.Some? then r.scheduledAt.value else 0)
    else if r.leaseExpiresAt.Some? then r.leaseExpiresAt.value else 0
  }

  lemma RunningIsDefined(s: Store, key: DefinitionKey, id: string)
    requires Inv(s) && RunningAt(s, key, id)
    ensures key in s.definitions && Current(s, id) in OpenRows(s, key) && RowShape(Current(s, id))
  {
    assert ExecutionOk(s, s.executions[id]);
    var k := CurrentKey(s.executions[id]);
    assert StepOk(s, s.steps[k]);
    assert k in s.steps && WorkflowKey(s.steps[k]) == key && s.steps[k].Open();
  }

  /** With room for every claimable row, a poll takes them all. */
  lemma RoomForAll(s: Store, key: DefinitionKey, now: Time, max: nat)
    requires Keyed(s) && |Claimable(s, key, now)| <= max
    ensures forall r :: r in Claimable(s, key, now) <==> r in Chosen(CandidateList(s, key), now, max)
  {
    var chosen, claimable := Chosen(CandidateList(s, key), now, max), Claimable(s, key, now);
    ChosenIsFirst(s, key, now, max);
    ElementsOfSorted(chosen);
    var taken := set r | r in chosen;
    if r :| r in claimable && r !in chosen {
      CardinalityOfSubset(taken, claimable - {r});
    }
  }

  lemma ReadyMeansKnown(rule: LeaseRule, s: Store, key: DefinitionKey, now: Time, max: nat)
    requires Inv(s) && key in s.definitions && LeasesReady(rule, s, key)
    ensures LeasesKnown(rule, s.definitions[key], Chosen(CandidateList(s, key), now, max))
  {
    var chosen := Chosen(CandidateList(s, key), now, max);
    ChosenRows(s, key, now, max);
    forall i | 0 <= i < |chosen| ensures LeaseOf(rule, s.definitions[key], chosen[i].stepName).Some? {
      RowIsCurrent(s, chosen[i]);
      assert StepOk(s, chosen[i]);
      assert RunningAt(s, key, chosen[i].executionId);
    }
  }

  lemma ReadyClaims(rule: LeaseRule, s: Store, now: Time, key: DefinitionKey, workerId: string, max: nat, id: string)
    requires Inv(s) && RunningAt(s, key, id) && ValidNameAndVersion(key.name, key.version) && key in s.definitions
    requires LeasesReady(rule, s, key) && workerId != "" && max > 0 && |Claimable(s, key, now)| <= max
    requires IsClaimable(Current(s, id), now)
    ensures Claims(rule, s, now, key, workerId, max, id)
  {
    RunningIsDefined(s, key, id);
    RoomForAll(s, key, now, max);
    ReadyMeansKnown(rule, s, key, now, max);
    var chosen := Chosen(CandidateList(s, key), now, max);
    var r := Current(s, id);
    assert r in Claimable(s, key, now);
    var i :| 0 <= i < |chosen| && chosen[i] == r;
    assert KeyOfStep(Poll(rule, s, now, key.name, key.version, workerId, max).value[i]) == CurrentKey(s.executions[id]);
  }

  /** A time by which every open row of the workflow can be claimed. */
  lemma {:induction false} AllAwake(rows: set<StepExecution>, atLeast: Time) returns (t: Time)
    ensures t >= atLeast && forall r :: r in rows ==> WakeTime(r) <= t
    decreases rows
  {
    if rows == {} {
      t := atLeast;
    } else {
      var r :| r in rows;
      t := AllAwake(rows - {r}, if WakeTime(r) > atLeast then WakeTime(r) else atLeast);
    }
  }

  lemma ServedMeansReady(rule: LeaseRule, s: Store, key: DefinitionKey, id: string, from: Time)
    requires Inv(s) && RunningAt(s, key, id) && key in s.definitions && ServedFrom(rule, s, key, id, from)
    ensures LeasesReady(rule, s, key)
  {
    var now := AllAwake(OpenRows(s, key), from);
    var max := |Claimable(s, key, now)| + 1;
    assert Claims(rule, s, now, key, "worker", max, id);
    RoomForAll(s, key, now, max);
    var chosen := Chosen(CandidateList(s, key), now, max);
    forall a | RunningAt(s, key, a) ensures LeaseOf(rule, s.definitions[key], s.executions[a].currentStepName).Some? {
      RunningIsDefined(s, key, a);
      assert WakeTime(Current(s, a)) <= now;
      assert Current(s, a) in Claimable(s, key, now);
      var i :| 0 <= i < |chosen| && chosen[i] == Current(s, a);
    }
  }

  /** A running execution is certain to be handed out from some time on, whoever polls, exactly when every
      running execution of its workflow is at a step whose expected time the lease rule accepts: one that is
      not blocks them all. */
  lemma ServedExactly(rule: LeaseRule, s: Store, key: DefinitionKey, id: string)
    requires Inv(s) && RunningAt(s, key, id) && ValidNameAndVersion(key.name, key.version) && key in s.definitions
    ensures LeasesReady(rule, s, key) <==> exists now :: ServedFrom(rule, s, key, id, now)
  {
    if LeasesReady(rule, s, key) {
      var wake := WakeTime(Current(s, id));
      RunningIsDefined(s, key, id);
      forall t: Time, workerId: string, max: nat | t >= wake && workerId != "" && max > 0 && |Claimable(s, key, t)| <= max
        ensures Claims(rule, s, t, key, workerId, max, id)
      {
        ReadyClaims(rule, s, t, key, workerId, max, id);
      }
      assert ServedFrom(rule, s, key, id, wake);
    }
    if now :| ServedFrom(rule, s, key, id, now) {
      ServedMeansReady(rule, s, key, id, now);
    }
  }

  /* ---- over whole runs ---- */

  /** The steps a definition declares are `names`, all with a usable expected time, the start step among them. */
  ghost predicate Usable(rule: LeaseRule, d: WorkflowDefinition, names: set<string>) {
    && d.startWorkflowStepName in names
    && (forall name :: FindStep(d.steps, name).Some? ==> name in names)
    && (forall name :: name in names ==> LeaseOf(rule, d, name).Some?)
  }

  ghost predicate RegistersUsable(rule: LeaseRule, c: Call, key: DefinitionKey, names: set<string>) {
    c.RegisterCall? && KeyOfDefinition(c.definition) == key ==> Usable(rule, c.definition, names)
  }

  /** Whatever is registered for the workflow is usable, and its running executions are at declared steps. */
  ghost predicate OnTrack(rule: LeaseRule, s: Store, key: DefinitionKey, names: set<string>) {
    && (key in s.definitions ==> ValidNameAndVersion(key.name, key.version) && Usable(rule, s.definitions[key], names))
    && (forall id :: RunningAt(s, key, id) ==> s.executions[id].currentStepName in names)
  }

  lemma StepStaysDeclared(rule: LeaseRule, s: Store, c: Call, key: DefinitionKey, names: set<string>, id: string)
    requires Inv(s) && Allowed(s, c) && OnTrack(rule, s, key, names) && RunningAt(After(rule, s, c), key, id)
    requires key in s.definitions
    ensures After(rule, s, c).executions[id].currentStepName in names
  {
    RunningBefore(rule, s, c, key, id);
    if id in s.executions {
      CallChanges(rule, s, c, id);
      DeclaredOrSame(rule, s, c, After(rule, s, c), id);
    }
  }

  /** A change leaves the execution at its step or takes it to one its definition declares. */
  lemma DeclaredOrSame(rule: LeaseRule, s: Store, c: Call, t: Store, id: string)
    requires Inv(s) && id in s.executions && WorkflowOf(s.executions[id]) in s.definitions
    requires Change(rule, s, c, t, id) && id in t.executions
    ensures t.executions[id].currentStepName == s.executions[id].currentStepName
         || FindStep(s.definitions[WorkflowOf(s.executions[id])].steps, t.executions[id].currentStepName).Some?
  {
  }

  lemma CallStaysOnTrack(rule: LeaseRule, s: Store, c: Call, key: DefinitionKey, names: set<string>)
    requires Inv(s) && Allowed(s, c) && OnTrack(rule, s, key, names) && RegistersUsable(rule, c, key, names)
    ensures OnTrack(rule, After(rule, s, c), key, names)
  {
    LocksAndDefinitions(rule, s, c, key);
    forall id | RunningAt(After(rule, s, c), key, id) ensures After(rule, s, c).executions[id].currentStepName in names {
      RunningBefore(rule, s, c, key, id);
      if id in s.executions {
        assert ExecutionOk(s, s.executions[id]);
      }
      StepStaysDeclared(rule, s, c, key, names, id);
    }
  }

  lemma {:induction false} RunStaysOnTrack(rule: LeaseRule, states: seq<Store>, calls: seq<Call>, key: DefinitionKey, names: set<string>, i: nat)
    requires Run(rule, states, calls) && i <= |calls| && OnTrack(rule, states[0], key, names)
    requires forall j :: 0 <= j < |calls| ==> RegistersUsable(rule, calls[j], key, names)
    ensures OnTrack(rule, states[i], key, names)
  {
    if i > 0 {
      RunStaysOnTrack(rule, states, calls, key, names, i - 1);
      RunKeeps(rule, states, calls, i - 1);
      assert Next(rule, states[i - 1], calls[i - 1], states[i]);
      CallStaysOnTrack(rule, states[i - 1], calls[i - 1], key, names);
    }
  }

  /** No running execution is ever stuck: if every registration of its workflow declares the same steps, each
      with a usable expected time and the start step among them, then from any state a run reaches there is a
      time from which any poll with room for the claimable rows is given its current step. */
  lemma NeverStuck(rule: LeaseRule, states: seq<Store>, calls: seq<Call>, key: DefinitionKey, names: set<string>, i: nat, id: string)
    returns (from: Time)
    requires Run(rule, states, calls) && i <= |calls| && OnTrack(rule, states[0], key, names)
    requires forall j :: 0 <= j < |calls| ==> RegistersUsable(rule, calls[j], key, names)
    requires RunningAt(states[i], key, id)
    ensures Inv(states[i]) && ServedFrom(rule, states[i], key, id, from)
  {
    RunKeeps(rule, states, calls, i);
    RunStaysOnTrack(rule, states, calls, key, names, i);
    RunningIsDefined(states[i], key, id);
    ServedExactly(rule, states[i], key, id);
    from :| ServedFrom(rule, states[i], key, id, from);
  }

  /** When no running execution of a workflow is at a step with a usable expected time, a poll that finds
      something to claim throws. */
  lemma NoLeaseNoPoll(rule: LeaseRule, s: Store, now: Time, key: DefinitionKey, workerId: string, max: nat)
    requires Inv(s) && key in s.definitions && Claimable(s, key, now) != {}
    requires forall id :: RunningAt(s, key, id) ==> LeaseOf(rule, s.definitions[key], s.executions[id].currentStepName).None?
    ensures Poll(rule, s, now, key.name, key.version, workerId, max).Thrown?
  {
    var chosen := Chosen(CandidateList(s, key), now, max);
    ChosenIsFirst(s, key, now, max);
    ChosenRows(s, key, now, max);
    if max > 0 {
      assert |Claimable(s, key, now)| > 0;
      RowIsCurrent(s, chosen[0]);
      assert StepOk(s, chosen[0]);
      assert RunningAt(s, key, chosen[0].executionId);
    }
  }
}
