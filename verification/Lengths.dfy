/** How long leases are, from the definition's text to the clock's microseconds. */
module Lengths {
  import opened Prelude
  import opened Domain
  import opened Tables
  import opened Operations
  import opened Invariant
  import opened Runs
  import opened Leases
  import opened Origins
  import opened Admission
  import Duration

  /** The step's expected time is the duration `p`, of a positive total that fits 63 bits. */
  ghost predicate Takes(step: WorkflowStep, p: Duration.Parts) {
    && step.expectedExecutionTime == Some(p.Text()) && p.Ok() && p.date == Duration.NO_DATE
    && 0 < Duration.Total(p) <= Duration.MAX_INT64
  }

  /** A third of the duration, in microseconds of whole seconds, and at least one second. */
  function ThirdOf(p: Duration.Parts): Time {
    1_000_000 * (if Duration.Total(p) < 3 then 1 else Duration.Total(p) / 3)
  }

  lemma RuleRead(text: string, seconds: nat) returns (p: Duration.Parts)
    requires Duration.LeaseSeconds(text) == Some(seconds)
    ensures p.Ok() && p.date == Duration.NO_DATE && p.Text() == text && 0 < Duration.Total(p) <= Duration.MAX_INT64
    ensures 1_000_000 * seconds == ThirdOf(p)
  {
    Duration.MatchersSound(text);
    p := Duration.MatchCalculator(text).value;
    Duration.ParseExact(p);
    Duration.LeaseRule(p, p);
  }

  lemma LeaseRead(d: WorkflowDefinition, name: string, lease: Time) returns (n: nat, p: Duration.Parts)
    requires LeaseOf(Duration.LeaseSeconds, d, name) == Some(lease)
    ensures FirstNamed(d, n, name) && Takes(d.steps[n], p) && lease == ThirdOf(p)
  {
    n := FirstFound(d.steps, name);
    var text := d.steps[n].expectedExecutionTime.value;
    p := RuleRead(text, Duration.LeaseSeconds(text).value);
  }

  /** Every lease a poll or a keep-alive gives its caller ends a third of the step's expected time after the
      reading it is counted from, and a second after it when that is less: to the microsecond. The expected time
      is that of the first step the workflow's definition gives the name, as then registered. */
  lemma GrantLength(s: Store, c: Call, k: StepKey, lease: Lease) returns (n: nat, p: Duration.Parts)
    requires Inv(s) && Granted(Duration.LeaseSeconds, s, c, k) == Some(lease)
    ensures (c.PollCall? || c.KeepAliveCall?) && c.workerId == lease.workerId && RegisteredFor(s, k.executionId).Some?
    ensures var d := RegisteredFor(s, k.executionId).value;
            FirstNamed(d, n, k.stepName) && Takes(d.steps[n], p)
    ensures lease.until - (if c.PollCall? then c.now else c.clock.stored) == ThirdOf(p)
  {
    GrantTerm(Duration.LeaseSeconds, s, c, k, lease);
    var d := RegisteredFor(s, k.executionId).value;
    n, p := LeaseRead(d, k.stepName, LeaseOf(Duration.LeaseSeconds, d, k.stepName).value);
  }

  /** The same of the lease on any row of the tables a run reaches: it was given by call `i`, and its length is
      read off the definition as it was then. */
  lemma LeaseLength(states: seq<Store>, calls: seq<Call>, j: nat, k: StepKey, lease: Lease) returns (i: nat, n: nat, p: Duration.Parts)
    requires Run(Duration.LeaseSeconds, states, calls) && states[0] == EMPTY && j <= |calls| && LeaseAt(states[j], k) == Some(lease)
    ensures i < j && (calls[i].PollCall? || calls[i].KeepAliveCall?) && RegisteredFor(states[i], k.executionId).Some?
    ensures var d := RegisteredFor(states[i], k.executionId).value;
            FirstNamed(d, n, k.stepName) && Takes(d.steps[n], p)
    ensures lease.until - (if calls[i].PollCall? then calls[i].now else calls[i].clock.stored) == ThirdOf(p)
    ensures forall m :: i < m <= j ==> LeaseAt(states[m], k) == Some(lease)
  {
    i := GrantingCall(Duration.LeaseSeconds, states, calls, j, k, lease);
    RunKeeps(Duration.LeaseSeconds, states, calls, i);
    n, p := GrantLength(states[i], calls[i], k, lease);
  }
}
