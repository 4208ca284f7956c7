/** Which overlapping transactions cannot both commit. */
module Conflicts {
  import opened Prelude
  import opened JsonValue
  import opened Domain
  import opened Tables
  import opened Operations
  import opened Candidates
  import opened Invariant
  import opened Preservation
  import opened Runs
  import opened Singletons
  import opened Footprints
  import Duration

  /** Every lock row names an execution there is. */
  ghost predicate LocksNamed(s: Store) {
    forall k :: k in s.locks ==> s.locks[k].executionId in s.executions
  }

  lemma CallKeepsLocksNamed(rule: LeaseRule, s: Store, c: Call)
    requires Inv(s) && Allowed(s, c) && LocksNamed(s)
    ensures LocksNamed(After(rule, s, c))
  {
    var t := After(rule, s, c);
    CallAdds(rule, s, c);
    forall k | k in t.locks ensures t.locks[k].executionId in t.executions {
      LocksAndDefinitions(rule, s, c, k);
      if !(c.StartCall? && DefinitionKey(c.name, c.version) == k) {
        assert Lookup(t.locks, k) == Lookup(s.locks, k);
      } else if Effect(rule, s, c).Some? {
        StartNamesLock(s, c.clock, c.id, c.name, c.version, c.input);
      }
    }
  }

  lemma StartNamesLock(s: Store, clock: Clock, id: string, name: string, version: int, input: Json)
    requires Start(s, clock, id, name, version, input).Done? && LocksNamed(s)
    ensures var t, key := Apply(s, Start(s, clock, id, name, version, input).writes), DefinitionKey(name, version);
            id in t.executions && (key in t.locks ==> t.locks[key].executionId in t.executions)
    ensures var t, key := Apply(s, Start(s, clock, id, name, version, input).writes), DefinitionKey(name, version);
            s.definitions[key].singleton ==> key in t.locks && t.locks[key].executionId == id && t.executions[id].status.Running?
  {
  }

  lemma {:induction false} RunLocksNamed(rule: LeaseRule, states: seq<Store>, calls: seq<Call>, i: nat)
    requires Run(rule, states, calls) && i <= |calls| && LocksNamed(states[0])
    ensures LocksNamed(states[i])
  {
    if i > 0 {
      RunLocksNamed(rule, states, calls, i - 1);
      RunKeeps(rule, states, calls, i - 1);
      assert Next(rule, states[i - 1], calls[i - 1], states[i]);
      CallKeepsLocksNamed(rule, states[i - 1], calls[i - 1]);
    }
  }

  /** Of two starts of a singleton that overlap, the second to commit is refused; tried again, it finds the
      first one's execution running and throws. */
  lemma StartsConflict(s: Store, clock: Clock, id: string, clock': Clock, id': string, name: string, version: int, input: Json, input': Json)
    requires Keyed(s) && LocksNamed(s) && id !in s.executions
    requires Start(s, clock, id, name, version, input).Done? && Start(s, clock', id', name, version, input').Done?
    requires s.definitions[DefinitionKey(name, version)].singleton
    ensures var t := Apply(s, Start(s, clock, id, name, version, input).writes);
            && !Agree(s, t, StartReads(s, name, version))
            && Start(t, clock', id', name, version, input').Thrown?
  {
    var t, key := Apply(s, Start(s, clock, id, name, version, input).writes), DefinitionKey(name, version);
    StartNamesLock(s, clock, id, name, version, input);
    assert LockRow(key) in StartReads(s, name, version);
    assert !Same(s, t, LockRow(key));
    assert t.definitions == s.definitions;
  }

  /** A rule whose leases last: `calculateLeaseDuration` is one. */
  ghost predicate Lasting(rule: LeaseRule) {
    forall text: string :: rule(text).Some? ==> rule(text).value >= 1
  }

  lemma LeasesLast()
    ensures Lasting(Duration.LeaseSeconds)
  {
  }

  lemma ClaimChangesRow(r: StepExecution, workerId: string, now: Time, lease: Time)
    requires IsClaimable(r, now) && lease > 0
    ensures ClaimedRow(r, workerId, now, lease) != r
  {
  }

  lemma LeaseIsPositive(rule: LeaseRule, d: WorkflowDefinition, stepName: string)
    requires Lasting(rule) && LeaseOf(rule, d, stepName).Some?
    ensures LeaseOf(rule, d, stepName).value > 0
  {
    var text := FindStep(d.steps, stepName).value.expectedExecutionTime.value;
    assert rule(text).Some?;
  }

  /** Of two polls of a workflow that overlap, once the first has claimed anything the second is refused:
      competing workers never both commit claims made on the same tables. */
  lemma PollsConflict(rule: LeaseRule, s: Store, now: Time, name: string, version: int, workerId: string, max: nat)
    requires Lasting(rule) && Keyed(s) && Poll(rule, s, now, name, version, workerId, max).Done?
    requires Poll(rule, s, now, name, version, workerId, max).value != []
    ensures !Agree(s, Apply(s, Poll(rule, s, now, name, version, workerId, max).writes), PollReads(name, version))
  {
    var key, o := DefinitionKey(name, version), Poll(rule, s, now, name, version, workerId, max);
    var chosen := Chosen(CandidateList(s, key), now, max);
    ChosenRows(s, key, now, max);
    ClaimAllKeys(rule, s.definitions[key], chosen, workerId, now);
    PollWritesApply(rule, s, now, name, version, workerId, max);
    PutStepsAt(s, o.value);
    LeaseIsPositive(rule, s.definitions[key], chosen[0].stepName);
    ClaimChangesRow(chosen[0], workerId, now, LeaseOf(rule, s.definitions[key], chosen[0].stepName).value);
    RunningRowsDiffer(s, Apply(s, o.writes), key, chosen[0], o.value[0]);
  }

  /** So it is with the leases the orchestrator gives. */
  lemma WorkersConflict(s: Store, now: Time, name: string, version: int, workerId: string, max: nat)
    requires Keyed(s) && Poll(Duration.LeaseSeconds, s, now, name, version, workerId, max).Done?
    requires Poll(Duration.LeaseSeconds, s, now, name, version, workerId, max).value != []
    ensures !Agree(s, Apply(s, Poll(Duration.LeaseSeconds, s, now, name, version, workerId, max).writes), PollReads(name, version))
  {
    LeasesLast();
    PollsConflict(Duration.LeaseSeconds, s, now, name, version, workerId, max);
  }

  lemma RunningRowsDiffer(s: Store, t: Store, key: DefinitionKey, r: StepExecution, claimed: StepExecution)
    requires KeyOfStep(claimed) == KeyOfStep(r) && claimed != r && claimed.status.Running? && WorkflowKey(claimed) == key
    requires KeyOfStep(r) in s.steps && s.steps[KeyOfStep(r)] == r && KeyOfStep(r) in t.steps && t.steps[KeyOfStep(r)] == claimed
    ensures !Agree(s, t, PollReads(key.name, key.version))
  {
    var q := ByWorkflow(key.name, key.version, StepStatus.Running);
    assert KeyOfStep(r) in Select(t, q) && Select(t, q)[KeyOfStep(r)] == claimed;
    if KeyOfStep(r) in Select(s, q) {
      assert Select(s, q)[KeyOfStep(r)] == r;
    }
    assert !Same(s, t, StepQuery(q));
    assert StepQuery(q) in PollReads(key.name, key.version);
  }
}
