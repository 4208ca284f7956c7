/** Interleaved transactions: whatever overlaps, the tables are what the committed calls leave when they are
    made one at a time in commit order, and every caller was told what it would have been told then. */
module Serializability {
  import opened Prelude
  import opened JsonValue
  import opened Domain
  import opened Tables
  import opened Operations
  import opened Candidates
  import opened Invariant
  import opened Preservation
  import opened Sweeping
  import opened Runs
  import opened Footprints
  import opened Transactions
  import opened Orchestration
  import opened Singletons

  /** What a call returns. */
  datatype Reply =
    | DefinitionReply(definition: WorkflowDefinition)
    | ExecutionReply(execution: Execution)
    | StepReply(row: StepExecution)
    | StepsReply(rows: seq<StepExecution>)
    | SweepReply(result: SweepResult)

  /** What a call returns on the given tables; None when it throws. */
  ghost function ReplyTo(rule: LeaseRule, s: Store, c: Call): Option<Reply>
    requires Keyed(s)
  {
    match c
    case RegisterCall(d) => var o := Register(s, d); if o.Done? then Some(DefinitionReply(o.value)) else None
    case StartCall(clock, id, name, version, input) =>
      var o := Start(s, clock, id, name, version, input); if o.Done? then Some(ExecutionReply(o.value)) else None
    case PollCall(now, name, version, workerId, max) =>
      var o := Poll(rule, s, now, name, version, workerId, max); if o.Done? then Some(StepsReply(o.value)) else None
    case KeepAliveCall(clock, id, stepName, workerId) =>
      var o := KeepAlive(rule, s, clock, id, stepName, workerId); if o.Done? then Some(StepReply(o.value)) else None
    case CompleteCall(clock, id, stepName, workerId, output, delay, decision) =>
      var o := Complete(s, clock, id, stepName, workerId, output, delay, decision);
      if o.Done? then Some(ExecutionReply(o.value)) else None
    case FailCall(clock, id, stepName, workerId, reason) =>
      var o := Fail(s, clock, id, stepName, workerId, reason); if o.Done? then Some(ExecutionReply(o.value)) else None
    case CancelCall(now, id) => var o := Cancel(s, now, id); if o.Done? then Some(ExecutionReply(o.value)) else None
    case SweepCall(now, created, rows) => var o := Sweep(s, now, created, rows); if o.Done? then Some(SweepReply(o.value)) else None
  }

  /** What a call has to read to come out as it does. */
  function Needs(s: Store, c: Call): set<Read> {
    match c
    case RegisterCall(_) => {}
    case StartCall(_, _, name, version, _) => StartReads(s, name, version)
    case PollCall(_, name, version, _, _) => PollReads(name, version)
    case KeepAliveCall(_, id, stepName, _) => ClaimReads(s, id, stepName)
    case CompleteCall(_, id, stepName, _, _, _, _) => ClaimReads(s, id, stepName)
    case FailCall(_, id, stepName, _, _) => ClaimReads(s, id, stepName)
    case CancelCall(_, id) => CancelReads(id)
    case SweepCall(now, created, rows) => SweepReads(s, now, created, rows)
  }

  /** A call comes out the same on any tables that answer its reads alike. */
  lemma SameReadsSameCall(rule: LeaseRule, s: Store, t: Store, c: Call)
    requires Keyed(s) && Keyed(t) && Effect(rule, s, c).Some? && Agree(s, t, Needs(s, c))
    ensures Effect(rule, t, c) == Effect(rule, s, c)
    ensures ReplyTo(rule, t, c) == ReplyTo(rule, s, c)
  {
    match c
    case RegisterCall(_) =>
    case StartCall(clock, id, name, version, input) => StartFootprint(s, t, clock, id, name, version, input);
    case PollCall(now, name, version, workerId, max) => PollFootprint(rule, s, t, now, name, version, workerId, max);
    case CancelCall(now, id) => CancelFootprint(s, t, now, id);
    case SweepCall(now, created, rows) => SweepFootprint(s, t, now, created, rows);
    case _ => SameReadsSameClaim(rule, s, t, c);
  }

  lemma SameReadsSameClaim(rule: LeaseRule, s: Store, t: Store, c: Call)
    requires Keyed(s) && Keyed(t) && Effect(rule, s, c).Some? && Agree(s, t, Needs(s, c))
    requires c.KeepAliveCall? || c.CompleteCall? || c.FailCall?
    ensures Effect(rule, t, c) == Effect(rule, s, c)
    ensures ReplyTo(rule, t, c) == ReplyTo(rule, s, c)
  {
    ClaimFootprint(s, t, c.id, c.stepName, c.workerId, c.clock.checked);
    match c
    case KeepAliveCall(clock, id, stepName, workerId) => SameKeepAlive(rule, s, t, clock, id, stepName, workerId);
    case CompleteCall(clock, id, stepName, workerId, output, delay, decision) =>
      SameComplete(s, t, clock, id, stepName, workerId, output, delay, decision);
    case FailCall(clock, id, stepName, workerId, reason) => SameFail(s, t, clock, id, stepName, workerId, reason);
  }

  lemma SameKeepAlive(rule: LeaseRule, s: Store, t: Store, clock: Clock, id: string, stepName: string, workerId: string)
    requires Owned(t, id, stepName, workerId, clock.checked) == Owned(s, id, stepName, workerId, clock.checked)
    ensures KeepAlive(rule, t, clock, id, stepName, workerId) == KeepAlive(rule, s, clock, id, stepName, workerId)
  {
  }

  lemma SameComplete(s: Store, t: Store, clock: Clock, id: string, stepName: string, workerId: string, output: Json,
                     delay: Option<Time>, decision: NextStepDecision)
    requires Owned(t, id, stepName, workerId, clock.checked) == Owned(s, id, stepName, workerId, clock.checked)
    ensures Complete(t, clock, id, stepName, workerId, output, delay, decision) == Complete(s, clock, id, stepName, workerId, output, delay, decision)
  {
  }

  lemma SameFail(s: Store, t: Store, clock: Clock, id: string, stepName: string, workerId: string, reason: string)
    requires Owned(t, id, stepName, workerId, clock.checked) == Owned(s, id, stepName, workerId, clock.checked)
    ensures Fail(t, clock, id, stepName, workerId, reason) == Fail(s, clock, id, stepName, workerId, reason)
  {
  }

  /** The decision a completion carries is the logic's, on the tables it saw. */
  ghost predicate Decided(decide: Logic, s: Store, c: Call) {
    c.CompleteCall? && c.id in s.executions ==>
      decide(CompletionContext(s.executions[c.id], c.stepName, c.output)) == Some(c.decision)
  }

  lemma SameReadsSameDecision(rule: LeaseRule, decide: Logic, s: Store, t: Store, c: Call)
    requires Keyed(s) && Effect(rule, s, c).Some? && Agree(s, t, Needs(s, c)) && Decided(decide, s, c)
    ensures Decided(decide, t, c)
  {
    if c.CompleteCall? {
      assert Same(s, t, ExecutionRow(c.id));
    }
  }

  lemma SameReadsSameRows(s: Store, t: Store, c: Call)
    requires c.SweepCall? && Allowed(s, c) && Agree(s, t, Needs(s, c))
    ensures Allowed(t, c)
  {
    assert Same(s, t, StepQuery(ByStatus(StepStatus.Running)));
  }

  /* ---- overlapping transactions ---- */

  /** A transaction in flight: its call, and the tables as they were when it began. */
  datatype InFlight = InFlight(call: Call, snapshot: Store)

  /** The committed tables and the transactions in flight; and, for the record, every committed state so far
      and the calls committed between them with what they returned. */
  datatype System = System(
    committed: Store,
    open: map<nat, InFlight>,
    history: seq<Store>,
    calls: seq<Call>,
    replies: seq<Reply>)

  datatype Event =
    | Begins(tx: nat, call: Call)
    | Commits(tx: nat)
    | Drops(tx: nat)

  function Empty(s: Store): System {
    System(s, map[], [s], [], [])
  }

  /** A transaction begins on the committed tables. It commits if its call went through on them, nothing it
      read has changed since, and the id it drew is not in use; then all its writes appear at once. A call
      that throws, or whose commit is refused, is dropped and has written nothing; a retry is another
      transaction. */
  ghost predicate Happens(rule: LeaseRule, decide: Logic, a: System, e: Event, b: System) {
    match e
    case Begins(tx, call) =>
      && tx !in a.open
      && (call.SweepCall? ==> Allowed(a.committed, call)) && Decided(decide, a.committed, call)
      && b == a.(open := a.open[tx := InFlight(call, a.committed)])
    case Commits(tx) =>
      && tx in a.open
      && var p := a.open[tx];
         && Keyed(p.snapshot) && Effect(rule, p.snapshot, p.call).Some? && ReplyTo(rule, p.snapshot, p.call).Some?
         && Agree(p.snapshot, a.committed, Needs(p.snapshot, p.call))
         && (p.call.StartCall? ==> p.call.id !in a.committed.executions)
         && var t := Apply(a.committed, Effect(rule, p.snapshot, p.call).value);
            b == System(t, a.open - {tx}, a.history + [t], a.calls + [p.call], a.replies + [ReplyTo(rule, p.snapshot, p.call).value])
    case Drops(tx) =>
      && tx in a.open && b == a.(open := a.open - {tx})
  }

  ghost predicate Trace(rule: LeaseRule, decide: Logic, systems: seq<System>, events: seq<Event>) {
    && |systems| == |events| + 1
    && forall i :: 0 <= i < |events| ==> Happens(rule, decide, systems[i], events[i], systems[i + 1])
  }

  /** The `i`-th committed call, made alone on the `i`-th committed state. */
  ghost predicate MadeAlone(rule: LeaseRule, decide: Logic, s: Store, c: Call, r: Reply) {
    Keyed(s) && ReplyTo(rule, s, c) == Some(r) && Decided(decide, s, c)
  }

  /** The committed calls, one at a time in commit order, are a run that gives every caller the reply it had
      and ends in the committed tables. */
  ghost predicate Serial(rule: LeaseRule, decide: Logic, y: System) {
    && Run(rule, y.history, y.calls) && |y.replies| == |y.calls|
    && y.history[|y.calls|] == y.committed
    && AllMadeAlone(rule, decide, y.history, y.calls, y.replies)
  }

  /** What each transaction in flight goes by. */
  ghost predicate Sound(decide: Logic, y: System) {
    forall tx :: tx in y.open ==>
      Keyed(y.open[tx].snapshot) && Decided(decide, y.open[tx].snapshot, y.open[tx].call)
      && (y.open[tx].call.SweepCall? ==> Allowed(y.open[tx].snapshot, y.open[tx].call))
  }

  /** A commit is the call made alone on the committed tables. */
  lemma CommitIsCall(rule: LeaseRule, decide: Logic, s: Store, p: InFlight)
    requires Keyed(s) && Keyed(p.snapshot) && Effect(rule, p.snapshot, p.call).Some? && ReplyTo(rule, p.snapshot, p.call).Some?
    requires Agree(p.snapshot, s, Needs(p.snapshot, p.call)) && Decided(decide, p.snapshot, p.call)
    requires p.call.SweepCall? ==> Allowed(p.snapshot, p.call)
    requires p.call.StartCall? ==> p.call.id !in s.executions
    ensures Next(rule, s, p.call, Apply(s, Effect(rule, p.snapshot, p.call).value))
    ensures MadeAlone(rule, decide, s, p.call, ReplyTo(rule, p.snapshot, p.call).value)
  {
    SameReadsSameCall(rule, p.snapshot, s, p.call);
    SameReadsSameDecision(rule, decide, p.snapshot, s, p.call);
    if p.call.SweepCall? {
      SameReadsSameRows(p.snapshot, s, p.call);
    }
  }

  ghost predicate AllMadeAlone(rule: LeaseRule, decide: Logic,
                               history: seq<Store>, calls: seq<Call>, replies: seq<Reply>)
    requires |history| == |calls| + 1 && |replies| == |calls|
  {
    forall i :: 0 <= i < |calls| ==> MadeAlone(rule, decide, history[i], calls[i], replies[i])
  }

  lemma OneMoreMadeAlone(rule: LeaseRule, decide: Logic,
                         history: seq<Store>, calls: seq<Call>, replies: seq<Reply>, c: Call, r: Reply, t: Store)
    requires |history| == |calls| + 1 && |replies| == |calls|
    requires AllMadeAlone(rule, decide, history, calls, replies) && MadeAlone(rule, decide, history[|calls|], c, r)
    ensures AllMadeAlone(rule, decide, history + [t], calls + [c], replies + [r])
  {
    var h', c', r' := history + [t], calls + [c], replies + [r];
    forall i | 0 <= i < |c'| ensures MadeAlone(rule, decide, h'[i], c'[i], r'[i]) {
      if i < |calls| {
        assert MadeAlone(rule, decide, history[i], calls[i], replies[i]);
      }
    }
  }

  lemma CommitKeepsSerial(rule: LeaseRule, decide: Logic, a: System, tx: nat, b: System)
    requires Serial(rule, decide, a) && Sound(decide, a) && Happens(rule, decide, a, Commits(tx), b)
    ensures Serial(rule, decide, b)
  {
    assert Keyed(a.committed) by { RunKeeps(rule, a.history, a.calls, |a.calls|); }
    var p := a.open[tx];
    CommitIsCall(rule, decide, a.committed, p);
    RunOneMore(rule, a.history, a.calls, p.call, b.committed);
    OneMoreMadeAlone(rule, decide, a.history, a.calls, a.replies, p.call, ReplyTo(rule, p.snapshot, p.call).value, b.committed);
  }

  lemma EventKeepsSerial(rule: LeaseRule, decide: Logic, a: System, e: Event, b: System)
    requires Serial(rule, decide, a) && Sound(decide, a) && Happens(rule, decide, a, e, b)
    ensures Serial(rule, decide, b) && Sound(decide, b)
  {
    if e.Commits? {
      CommitKeepsSerial(rule, decide, a, e.tx, b);
    } else {
      RunKeeps(rule, a.history, a.calls, |a.calls|);
    }
  }

  /** Serializability: in every interleaving, starting from tables that satisfy the invariant, the committed
      calls made one at a time in commit order lead to the committed tables and to the replies given. */
  lemma {:induction false} InterleavingsAreSerial(rule: LeaseRule, decide: Logic,
                                                  systems: seq<System>, events: seq<Event>, s: Store, i: nat)
    requires Trace(rule, decide, systems, events) && i <= |events| && systems[0] == Empty(s) && Inv(s)
    ensures Serial(rule, decide, systems[i]) && Sound(decide, systems[i])
  {
    if i > 0 {
      InterleavingsAreSerial(rule, decide, systems, events, s, i - 1);
      assert Happens(rule, decide, systems[i - 1], events[i - 1], systems[i]);
      EventKeepsSerial(rule, decide, systems[i - 1], events[i - 1], systems[i]);
    }
  }

  /** So the invariant holds of the committed tables of every interleaving. */
  lemma InterleavingsKeepInvariant(rule: LeaseRule, decide: Logic,
                                   systems: seq<System>, events: seq<Event>, s: Store, i: nat)
    requires Trace(rule, decide, systems, events) && i <= |events| && systems[0] == Empty(s) && Inv(s)
    ensures Inv(systems[i].committed)
  {
    InterleavingsAreSerial(rule, decide, systems, events, s, i);
    RunKeeps(rule, systems[i].history, systems[i].calls, |systems[i].calls|);
  }

  /** And a singleton workflow stays one under concurrent starts: the committed tables never hold two of its
      executions running. */
  lemma InterleavedSingleton(rule: LeaseRule, decide: Logic,
                             systems: seq<System>, events: seq<Event>, key: DefinitionKey, i: nat, a: string, b: string)
    requires Trace(rule, decide, systems, events) && i <= |events| && systems[0] == Empty(EMPTY)
    requires forall j :: 0 <= j < |systems[i].calls| ==> RegistersSingleton(systems[i].calls[j], key)
    requires RunningAt(systems[i].committed, key, a) && RunningAt(systems[i].committed, key, b)
    ensures a == b
  {
    EmptyTables();
    InterleavingsAreSerial(rule, decide, systems, events, EMPTY, i);
    StartsEmpty(rule, decide, systems, events, i);
    RunSingleton(rule, systems[i].history, systems[i].calls, key, |systems[i].calls|);
  }

  lemma {:induction false} StartsEmpty(rule: LeaseRule, decide: Logic,
                                       systems: seq<System>, events: seq<Event>, i: nat)
    requires Trace(rule, decide, systems, events) && i <= |events| && systems[0] == Empty(EMPTY)
    ensures |systems[i].history| > 0 && systems[i].history[0] == EMPTY
  {
    if i > 0 {
      StartsEmpty(rule, decide, systems, events, i - 1);
      assert Happens(rule, decide, systems[i - 1], events[i - 1], systems[i]);
    }
  }

  /** What the transaction class gives is what a commit here needs: a call that returned in a fresh
      transaction has its function's value and writes, and if the store accepts it, nothing the call depends
      on has changed. */
  lemma AcceptedCommit<T>(o: Outcome<T>, r: Result<T>, writes: Store, observed: set<Read>, needed: set<Read>, snapshot: Store, committed: Store)
    requires Refines(o, r, EMPTY, writes, observed, needed) && r.Returned? && Agree(snapshot, committed, observed)
    ensures o == Done(r.value, writes) && Agree(snapshot, committed, needed)
  {
    ApplyNothing(o.writes);
  }
}
