/** In what turn polls hand out the steps of a workflow, over whole runs: by the readings of the calls that opened
    them. */
module Turns {
  import opened Prelude
  import opened Text
  import opened Domain
  import opened Tables
  import opened Operations
  import opened Candidates
  import opened Invariant
  import opened Preservation
  import opened Runs
  import opened Singletons
  import opened Polling
  import opened Leases
  import opened Origins
  import opened Histories

  /** Call `i` is a poll of the workflow that goes through. */
  ghost predicate Polls(rule: LeaseRule, states: seq<Store>, calls: seq<Call>, i: nat, key: DefinitionKey)
    requires Run(rule, states, calls) && i < |calls|
  {
    Keyed(states[i]) && calls[i].PollCall? && key == DefinitionKey(calls[i].name, calls[i].version) && Effect(rule, states[i], calls[i]).Some?
  }

  /** The step is at hand for the workflow's workers. */
  ghost predicate Waiting(rule: LeaseRule, states: seq<Store>, calls: seq<Call>, i: nat, key: DefinitionKey, k: StepKey, now: Time)
    requires Run(rule, states, calls) && i <= |calls|
  {
    Available(rule, states, calls, i, k, now) && WorkflowOf(states[i].executions[k.executionId]) == key
  }

  /** The one step was opened at an earlier reading than the other, or at the same one and its execution's id
      comes first. */
  ghost predicate Earlier(rule: LeaseRule, states: seq<Store>, calls: seq<Call>, i: nat, a: StepKey, b: StepKey)
    requires Run(rule, states, calls) && i <= |calls|
  {
    var x, y := History(rule, states, calls, i, a).created, History(rule, states, calls, i, b).created;
    x.Some? && y.Some? && (x.value < y.value || (x.value == y.value && StringLess(a.executionId, b.executionId)))
  }

  ghost function Reply(rule: LeaseRule, s: Store, c: Call): seq<StepExecution>
    requires Keyed(s) && c.PollCall? && Effect(rule, s, c).Some?
  {
    Poll(rule, s, c.now, c.name, c.version, c.workerId, c.max).value
  }

  /* ---- in one state ---- */

  /** A row the reply names is the current step of a running execution of the workflow and was claimable. */
  lemma RepliedRow(rule: LeaseRule, s: Store, c: Call, p: nat) returns (r: StepExecution)
    requires Inv(s) && c.PollCall? && Effect(rule, s, c).Some? && p < |Reply(rule, s, c)|
    ensures r in Claimable(s, DefinitionKey(c.name, c.version), c.now) && KeyOfStep(r) == KeyOfStep(Reply(rule, s, c)[p])
    ensures RunningOn(s, KeyOfStep(r)) && Lookup(s.steps, KeyOfStep(r)) == Some(r)
    ensures WorkflowOf(s.executions[r.executionId]) == DefinitionKey(c.name, c.version) && IsClaimable(r, c.now)
    ensures r == AllUnclaimed(s, Reply(rule, s, c))[p]
  {
    var key, claimed := DefinitionKey(c.name, c.version), Reply(rule, s, c);
    PollReturnsFirst(rule, s, c.now, c.name, c.version, c.workerId, c.max);
    assert ClaimedFor(rule, s, c.now, key, c.workerId, claimed[p]);
    assert ExecutionOk(s, s.executions[claimed[p].executionId]);
    r := AllUnclaimed(s, claimed)[p];
    assert r in AllUnclaimed(s, claimed);
  }

  /** Two rows of the tables that are current rows of different executions, in the poll's order. */
  lemma BeforeCurrent(s: Store, a: StepExecution, b: StepExecution)
    requires Inv(s) && RunningOn(s, KeyOfStep(a)) && RunningOn(s, KeyOfStep(b)) && a != b
    requires Lookup(s.steps, KeyOfStep(a)) == Some(a) && Lookup(s.steps, KeyOfStep(b)) == Some(b)
    ensures a.createdAt.Some? && b.createdAt.Some?
    ensures Before(a, b)
       <==> a.createdAt.value < b.createdAt.value
            || (a.createdAt.value == b.createdAt.value && StringLess(a.executionId, b.executionId))
  {
    assert StepOk(s, s.steps[KeyOfStep(a)]) && StepOk(s, s.steps[KeyOfStep(b)]);
  }

  lemma ReplyInOrder(rule: LeaseRule, s: Store, c: Call, p: nat, q: nat)
    requires Inv(s) && c.PollCall? && Effect(rule, s, c).Some? && p < q < |Reply(rule, s, c)|
    ensures Before(AllUnclaimed(s, Reply(rule, s, c))[p], AllUnclaimed(s, Reply(rule, s, c))[q])
  {
    PollReturnsFirst(rule, s, c.now, c.name, c.version, c.workerId, c.max);
  }

  /** A claimable row that the reply does not name comes after all it names, and the reply is full. */
  lemma LeftOut(rule: LeaseRule, s: Store, c: Call, r: StepExecution, p: nat)
    requires Inv(s) && c.PollCall? && Effect(rule, s, c).Some? && r in Claimable(s, DefinitionKey(c.name, c.version), c.now)
    requires forall j :: 0 <= j < |Reply(rule, s, c)| ==> KeyOfStep(Reply(rule, s, c)[j]) != KeyOfStep(r)
    ensures |Reply(rule, s, c)| == c.max
    ensures p < |Reply(rule, s, c)| ==> Before(AllUnclaimed(s, Reply(rule, s, c))[p], r)
  {
    var key, claimed := DefinitionKey(c.name, c.version), Reply(rule, s, c);
    PollReturnsFirst(rule, s, c.now, c.name, c.version, c.workerId, c.max);
    Polling.NotReturned(rule, s, c.now, key, c.workerId, c.max, claimed, r);
  }

  /* ---- over runs ---- */

  lemma EarlierIsBefore(rule: LeaseRule, states: seq<Store>, calls: seq<Call>, i: nat, a: StepExecution, b: StepExecution)
    requires Run(rule, states, calls) && states[0] == EMPTY && i <= |calls|
    requires RunningOn(states[i], KeyOfStep(a)) && RunningOn(states[i], KeyOfStep(b)) && a != b
    requires Lookup(states[i].steps, KeyOfStep(a)) == Some(a) && Lookup(states[i].steps, KeyOfStep(b)) == Some(b)
    ensures Before(a, b) <==> Earlier(rule, states, calls, i, KeyOfStep(a), KeyOfStep(b))
  {
    RunKeeps(rule, states, calls, i);
    RowHistory(rule, states, calls, i, KeyOfStep(a));
    RowHistory(rule, states, calls, i, KeyOfStep(b));
    BeforeCurrent(states[i], a, b);
  }

  /** What a poll hands out was at hand: the current step of a running execution of the workflow, never held by
      anyone whose lease has not run out, never put off beyond now. */
  lemma HandsOutWaiting(rule: LeaseRule, states: seq<Store>, calls: seq<Call>, i: nat, key: DefinitionKey, p: nat)
    requires Run(rule, states, calls) && states[0] == EMPTY && i < |calls| && Polls(rule, states, calls, i, key)
    requires p < |Reply(rule, states[i], calls[i])|
    ensures Waiting(rule, states, calls, i, key, KeyOfStep(Reply(rule, states[i], calls[i])[p]), calls[i].now)
  {
    RunKeeps(rule, states, calls, i);
    var r := RepliedRow(rule, states[i], calls[i], p);
    AvailableIsClaimable(rule, states, calls, i, KeyOfStep(r), calls[i].now);
  }

  /** A poll returns steps in the order they were opened in, and the ids of their executions decide between
      those opened at the same reading. */
  lemma InTurn(rule: LeaseRule, states: seq<Store>, calls: seq<Call>, i: nat, key: DefinitionKey, p: nat, q: nat)
    requires Run(rule, states, calls) && states[0] == EMPTY && i < |calls| && Polls(rule, states, calls, i, key)
    requires p < q < |Reply(rule, states[i], calls[i])|
    ensures Earlier(rule, states, calls, i, KeyOfStep(Reply(rule, states[i], calls[i])[p]), KeyOfStep(Reply(rule, states[i], calls[i])[q]))
  {
    var s, c := states[i], calls[i];
    RunKeeps(rule, states, calls, i);
    var a := RepliedRow(rule, s, c, p);
    var b := RepliedRow(rule, s, c, q);
    ReplyInOrder(rule, s, c, p, q);
    if a == b {
      BeforeIrreflexive(a);
    }
    EarlierIsBefore(rule, states, calls, i, a, b);
  }

  /** A step that is at hand is passed over only by a poll that is full, of steps all opened earlier: of two that
      are at hand, the one opened at the earlier reading is never passed over for the other. */
  lemma NeverPassedOver(rule: LeaseRule, states: seq<Store>, calls: seq<Call>, i: nat, key: DefinitionKey, k: StepKey, p: nat)
    requires Run(rule, states, calls) && states[0] == EMPTY && i < |calls| && Polls(rule, states, calls, i, key)
    requires Waiting(rule, states, calls, i, key, k, calls[i].now)
    requires forall j :: 0 <= j < |Reply(rule, states[i], calls[i])| ==> KeyOfStep(Reply(rule, states[i], calls[i])[j]) != k
    ensures |Reply(rule, states[i], calls[i])| == calls[i].max
    ensures p < |Reply(rule, states[i], calls[i])| ==>
              Earlier(rule, states, calls, i, KeyOfStep(Reply(rule, states[i], calls[i])[p]), k)
  {
    var s, c := states[i], calls[i];
    AvailableIsClaimable(rule, states, calls, i, k, c.now);
    var r := s.steps[k];
    WaitingIsClaimable(s, key, k, c.now);
    LeftOut(rule, s, c, r, p);
    if p < |Reply(rule, s, c)| {
      var a := RepliedRow(rule, s, c, p);
      EarlierIsBefore(rule, states, calls, i, a, r);
    }
  }

  lemma WaitingIsClaimable(s: Store, key: DefinitionKey, k: StepKey, now: Time)
    requires Inv(s) && RunningOn(s, k) && WorkflowOf(s.executions[k.executionId]) == key && k in s.steps && IsClaimable(s.steps[k], now)
    ensures s.steps[k] in Claimable(s, key, now) && KeyOfStep(s.steps[k]) == k
  {
    assert StepOk(s, s.steps[k]);
  }
}
