/** The worker pool: pollers reserve executor slots before they poll, executors take steps from the queue.
    The sections under `stateMutex` are the atomic steps; any number of pollers and executors interleave. */
module WorkerPool {
  import opened Prelude
  import opened Domain

  /** What `stateMutex` guards. */
  datatype Shared = Shared(idle: int, queue: seq<StepExecution>, stopping: bool)

  /** How many slots a poller takes; None when there is none to take. */
  function SlotsTaken(s: Shared, max: nat): (n: Option<nat>)
    ensures n.None? <==> s.idle <= 0
    ensures n.Some? ==> n.value <= max && n.value <= s.idle && (n.value == max || n.value == s.idle)
  {
    if s.idle <= 0 then None else Some(if s.idle < max then s.idle else max)
  }

  function Reserve(s: Shared, max: nat): Shared {
    match SlotsTaken(s, max)
    case None => s
    case Some(n) => s.(idle := s.idle - n)
  }

  function GiveBack(s: Shared, n: nat): Shared {
    s.(idle := s.idle + n)
  }

  function Deliver(s: Shared, n: nat, steps: seq<StepExecution>): Shared {
    s.(idle := s.idle + n - |steps|, queue := s.queue + steps)
  }

  function Take(s: Shared): Shared
    requires s.queue != []
  {
    s.(queue := s.queue[1..])
  }

  function Release(s: Shared): Shared {
    s.(idle := s.idle + 1)
  }

  /** The pool's guarded fields and the sections that change them. */
  class Impl {
    const threadCount: nat
    const maxResultsPerPoll: nat
    var idleExecutors: int
    var workQueue: seq<StepExecution>
    var stopping: bool

    function Value(): Shared
      reads this
    {
      Shared(idleExecutors, workQueue, stopping)
    }

    constructor (threadCount: nat, maxResultsPerPoll: nat)
      ensures this.threadCount == threadCount && this.maxResultsPerPoll == maxResultsPerPoll
      ensures Value() == Shared(threadCount, [], false)
    {
      this.threadCount := threadCount;
      this.maxResultsPerPoll := maxResultsPerPoll;
      idleExecutors := threadCount;
      workQueue := [];
      stopping := false;
    }

    /** The queue is kept from one start to the next. */
    method Start()
      modifies this
      ensures Value() == Shared(threadCount, old(workQueue), false)
    {
      stopping := false;
      idleExecutors := threadCount;
    }

    method Stop()
      modifies this
      ensures Value() == old(Value()).(stopping := true)
    {
      stopping := true;
    }

    method ReserveSlots() returns (toRequest: Option<nat>)
      modifies this
      ensures toRequest == SlotsTaken(old(Value()), maxResultsPerPoll)
      ensures Value() == Reserve(old(Value()), maxResultsPerPoll)
    {
      if idleExecutors <= 0 {
        return None;
      }
      var n := if idleExecutors < maxResultsPerPoll then idleExecutors else maxResultsPerPoll;
      idleExecutors := idleExecutors - n;
      return Some(n);
    }

    method ReturnSlots(toRequest: nat)
      modifies this
      ensures Value() == GiveBack(old(Value()), toRequest)
    {
      idleExecutors := idleExecutors + toRequest;
    }

    method DeliverSteps(toRequest: nat, steps: seq<StepExecution>)
      modifies this
      ensures Value() == Deliver(old(Value()), toRequest, steps)
    {
      idleExecutors := idleExecutors + (toRequest - |steps|);
      ghost var before := workQueue;
      for i := 0 to |steps|
        invariant workQueue == before + steps[..i]
        invariant idleExecutors == old(idleExecutors) + (toRequest - |steps|) && stopping == old(stopping)
      {
        workQueue := workQueue + [steps[i]];
        assert steps[..i + 1] == steps[..i] + [steps[i]];
      }
      assert steps[..|steps|] == steps;
    }

    /** Woken with work or on stopping: the next step, or None to leave. */
    method TakeStep() returns (step: Option<StepExecution>)
      requires workQueue != [] || stopping
      modifies this
      ensures step.None? <==> old(workQueue) == []
      ensures step.Some? ==> step.value == old(workQueue)[0] && Value() == Take(old(Value()))
      ensures step.None? ==> Value() == old(Value())
    {
      if workQueue == [] {
        return None;
      }
      step := Some(workQueue[0]);
      workQueue := workQueue[1..];
    }

    method ReleaseSlot()
      modifies this
      ensures Value() == Release(old(Value()))
    {
      idleExecutors := idleExecutors + 1;
    }
  }

  /* ---- threads ---- */

  /** A poller is at its `stopping` check, past it, waiting for a poll it has reserved slots for, or gone. */
  datatype Poller = Checking | Cleared | Polling(reserved: nat) | PollerGone

  datatype Executor = Waiting | Executing(step: StepExecution) | ExecutorGone

  /** `entered` lists every step ever put in the queue, `taken` every step an executor took, `finished` the
      steps executed to the end. */
  datatype Pool = Pool(
    shared: Shared,
    pollers: seq<Poller>,
    executors: seq<Executor>,
    entered: seq<StepExecution>,
    taken: seq<StepExecution>,
    finished: multiset<StepExecution>)

  datatype Event =
    | Stops
    | Passes(p: nat)
    | Quits(p: nat)
    | Reserves(p: nat)
    | PollThrows(p: nat)
    | PollReturns(p: nat, steps: seq<StepExecution>)
    | Takes(x: nat)
    | Finishes(x: nat)
    | Leaves(x: nat)

  /** One atomic step of one thread. A poll returns at most the number of steps it asked for. A poller with no
      definitions to watch quits at once, any other only when it sees `stopping`. */
  ghost predicate Happens(max: nat, a: Pool, e: Event, b: Pool) {
    match e
    case Stops => b == a.(shared := a.shared.(stopping := true))
    case Passes(p) => p < |a.pollers| && a.pollers[p].Checking? && !a.shared.stopping && b == a.(pollers := a.pollers[p := Cleared])
    case Quits(p) => p < |a.pollers| && a.pollers[p].Checking? && b == a.(pollers := a.pollers[p := PollerGone])
    case Reserves(p) =>
      && p < |a.pollers| && a.pollers[p].Cleared?
      && b == a.(shared := Reserve(a.shared, max),
                 pollers := a.pollers[p := match SlotsTaken(a.shared, max) case None => Checking case Some(n) => Polling(n)])
    case PollThrows(p) =>
      && p < |a.pollers| && a.pollers[p].Polling?
      && b == a.(shared := GiveBack(a.shared, a.pollers[p].reserved), pollers := a.pollers[p := Checking])
    case PollReturns(p, steps) =>
      && p < |a.pollers| && a.pollers[p].Polling? && |steps| <= a.pollers[p].reserved
      && b == a.(shared := Deliver(a.shared, a.pollers[p].reserved, steps), pollers := a.pollers[p := Checking],
                 entered := a.entered + steps)
    case Takes(x) =>
      && x < |a.executors| && a.executors[x].Waiting? && a.shared.queue != []
      && b == a.(shared := Take(a.shared), executors := a.executors[x := Executing(a.shared.queue[0])],
                 taken := a.taken + [a.shared.queue[0]])
    case Finishes(x) =>
      && x < |a.executors| && a.executors[x].Executing?
      && b == a.(shared := Release(a.shared), executors := a.executors[x := Waiting],
                 finished := a.finished + multiset{a.executors[x].step})
    case Leaves(x) =>
      && x < |a.executors| && a.executors[x].Waiting? && a.shared.queue == [] && a.shared.stopping
      && b == a.(executors := a.executors[x := ExecutorGone])
  }

  /** The state `start` leaves, with whatever the queue held. */
  function Started(threadCount: nat, pollerCount: nat, queue: seq<StepExecution>): Pool {
    Pool(Shared(threadCount, queue, false), seq(pollerCount, i => Checking), seq(threadCount, i => Waiting), queue, [], multiset{})
  }

  ghost predicate Trace(max: nat, pools: seq<Pool>, events: seq<Event>) {
    && |pools| == |events| + 1
    && forall i :: 0 <= i < |events| ==> Happens(max, pools[i], events[i], pools[i + 1])
  }

  /* ---- counting ---- */

  function Holds(p: Poller): nat {
    if p.Polling? then p.reserved else 0
  }

  /** The slots pollers hold in the middle of a poll. */
  function Reserved(pollers: seq<Poller>): nat {
    if pollers == [] then 0 else Reserved(pollers[..|pollers| - 1]) + Holds(pollers[|pollers| - 1])
  }

  function InHand(x: Executor, s: StepExecution): nat {
    if x.Executing? && x.step == s then 1 else 0
  }

  /** How many executors are executing the step. */
  function Busy(executors: seq<Executor>, s: StepExecution): nat {
    if executors == [] then 0 else Busy(executors[..|executors| - 1], s) + InHand(executors[|executors| - 1], s)
  }

  /** How many executors are executing a step. */
  function Working(executors: seq<Executor>): nat {
    if executors == [] then 0
    else Working(executors[..|executors| - 1]) + if executors[|executors| - 1].Executing? then 1 else 0
  }

  lemma {:induction false} ReservedUpdate(pollers: seq<Poller>, i: nat, p: Poller)
    requires i < |pollers|
    ensures Reserved(pollers[i := p]) == Reserved(pollers) - Holds(pollers[i]) + Holds(p)
  {
    var n := |pollers| - 1;
    if i == n {
      assert pollers[i := p][..n] == pollers[..n];
    } else {
      assert pollers[i := p][..n] == pollers[..n][i := p];
      ReservedUpdate(pollers[..n], i, p);
    }
  }

  lemma {:induction false} WorkingUpdate(executors: seq<Executor>, i: nat, x: Executor)
    requires i < |executors|
    ensures Working(executors[i := x])
         == Working(executors) - (if executors[i].Executing? then 1 else 0) + if x.Executing? then 1 else 0
  {
    var n := |executors| - 1;
    if i == n {
      assert executors[i := x][..n] == executors[..n];
    } else {
      assert executors[i := x][..n] == executors[..n][i := x];
      WorkingUpdate(executors[..n], i, x);
    }
  }

  lemma {:induction false} BusyUpdate(executors: seq<Executor>, i: nat, x: Executor, s: StepExecution)
    requires i < |executors|
    ensures Busy(executors[i := x], s) + InHand(executors[i], s) == Busy(executors, s) + InHand(x, s)
  {
    var n := |executors| - 1;
    if i == n {
      assert executors[i := x][..n] == executors[..n];
    } else {
      assert executors[i := x][..n] == executors[..n][i := x];
      BusyUpdate(executors[..n], i, x, s);
    }
  }

  lemma {:induction false} NothingInHand(executors: seq<Executor>)
    requires forall i :: 0 <= i < |executors| ==> !executors[i].Executing?
    ensures (forall s :: Busy(executors, s) == 0) && Working(executors) == 0
  {
    if executors != [] {
      NothingInHand(executors[..|executors| - 1]);
    }
  }

  lemma {:induction false} NothingReserved(pollers: seq<Poller>)
    requires forall i :: 0 <= i < |pollers| ==> !pollers[i].Polling?
    ensures Reserved(pollers) == 0
  {
    if pollers != [] {
      NothingReserved(pollers[..|pollers| - 1]);
    }
  }

  /* ---- what every step keeps ---- */

  function Slots(a: Pool): int {
    a.shared.idle + Reserved(a.pollers) + |a.shared.queue| + Working(a.executors)
  }

  /** Every step taken is in someone's hands or executed to the end, once. */
  ghost predicate TakenOnce(a: Pool) {
    forall s :: multiset(a.taken)[s] == a.finished[s] + Busy(a.executors, s)
  }

  /** Every step put in the queue is still in it or has been taken, in the order they were put in. */
  ghost predicate Accounted(a: Pool) {
    a.entered == a.taken + a.shared.queue && TakenOnce(a)
  }

  lemma StepKeepsSlots(max: nat, a: Pool, e: Event, b: Pool)
    requires Happens(max, a, e, b)
    ensures Slots(b) == Slots(a) && (a.shared.idle >= 0 ==> b.shared.idle >= 0) && |b.executors| == |a.executors|
  {
    if e.Takes? || e.Finishes? || e.Leaves? {
      WorkingUpdate(a.executors, e.x, b.executors[e.x]);
    } else if !e.Stops? {
      ReservedUpdate(a.pollers, e.p, b.pollers[e.p]);
    }
  }

  lemma TakeKeepsAccounts(max: nat, a: Pool, x: nat, b: Pool)
    requires Happens(max, a, Takes(x), b) && Accounted(a)
    ensures Accounted(b)
  {
    var first := a.shared.queue[0];
    assert b.entered == b.taken + b.shared.queue by {
      assert a.shared.queue == [first] + a.shared.queue[1..];
    }
    TakeCounts(a.taken, a.finished, a.executors, x, first);
  }

  lemma TakeCounts(taken: seq<StepExecution>, finished: multiset<StepExecution>, executors: seq<Executor>, x: nat, first: StepExecution)
    requires x < |executors| && executors[x].Waiting? && forall s :: multiset(taken)[s] == finished[s] + Busy(executors, s)
    ensures forall s :: multiset(taken + [first])[s] == finished[s] + Busy(executors[x := Executing(first)], s)
  {
    forall s ensures multiset(taken + [first])[s] == finished[s] + Busy(executors[x := Executing(first)], s) {
      BusyUpdate(executors, x, Executing(first), s);
      assert multiset(taken + [first]) == multiset(taken) + multiset{first};
    }
  }

  lemma FinishKeepsAccounts(max: nat, a: Pool, x: nat, b: Pool)
    requires Happens(max, a, Finishes(x), b) && Accounted(a)
    ensures Accounted(b)
  {
    forall s ensures multiset(b.taken)[s] == b.finished[s] + Busy(b.executors, s) {
      BusyUpdate(a.executors, x, Waiting, s);
    }
  }

  lemma LeaveKeepsAccounts(max: nat, a: Pool, x: nat, b: Pool)
    requires Happens(max, a, Leaves(x), b) && Accounted(a)
    ensures Accounted(b)
  {
    forall s ensures multiset(b.taken)[s] == b.finished[s] + Busy(b.executors, s) {
      BusyUpdate(a.executors, x, ExecutorGone, s);
    }
  }

  lemma StepKeepsAccounts(max: nat, a: Pool, e: Event, b: Pool)
    requires Happens(max, a, e, b) && Accounted(a)
    ensures Accounted(b)
  {
    match e
    case Takes(x) => TakeKeepsAccounts(max, a, x, b);
    case Finishes(x) => FinishKeepsAccounts(max, a, x, b);
    case Leaves(x) => LeaveKeepsAccounts(max, a, x, b);
    case PollReturns(_, steps) => assert a.taken + (a.shared.queue + steps) == (a.taken + a.shared.queue) + steps;
    case _ =>
  }

  lemma StartedAccounts(threadCount: nat, pollerCount: nat, queue: seq<StepExecution>)
    ensures var a := Started(threadCount, pollerCount, queue);
            Accounted(a) && Slots(a) == threadCount + |queue| && a.shared.idle >= 0 && |a.executors| == threadCount
  {
    var a := Started(threadCount, pollerCount, queue);
    NothingInHand(a.executors);
    NothingReserved(a.pollers);
  }

  /** Slot conservation: in every interleaving from a start, idle executors, slots held by pollers, queued
      steps and steps being executed add up to the number of executors plus what the queue held at the start,
      and there are never fewer than no idle executors; every step is accounted for. */
  lemma {:induction false} SlotsConserved(max: nat, threadCount: nat, pollerCount: nat, queue: seq<StepExecution>,
                                          pools: seq<Pool>, events: seq<Event>, i: nat)
    requires Trace(max, pools, events) && pools[0] == Started(threadCount, pollerCount, queue) && i <= |events|
    ensures Slots(pools[i]) == threadCount + |queue| && pools[i].shared.idle >= 0 && |pools[i].executors| == threadCount
    ensures Accounted(pools[i])
  {
    if i == 0 {
      StartedAccounts(threadCount, pollerCount, queue);
    } else {
      SlotsConserved(max, threadCount, pollerCount, queue, pools, events, i - 1);
      assert Happens(max, pools[i - 1], events[i - 1], pools[i]);
      StepKeepsSlots(max, pools[i - 1], events[i - 1], pools[i]);
      StepKeepsAccounts(max, pools[i - 1], events[i - 1], pools[i]);
    }
  }

  /** Every queued step and every slot held for a poll has an executor not executing anything. */
  ghost predicate Enough(a: Pool) {
    |a.shared.queue| + Reserved(a.pollers) <= |a.executors| - Working(a.executors)
  }

  /** The pool never claims more than it can execute: after a first start, every queued step and every slot
      held for a poll has an executor that is not executing anything. */
  lemma EveryQueuedStepHasAnExecutor(max: nat, threadCount: nat, pollerCount: nat, pools: seq<Pool>, events: seq<Event>, i: nat)
    requires Trace(max, pools, events) && pools[0] == Started(threadCount, pollerCount, []) && i <= |events|
    ensures Enough(pools[i])
  {
    SlotsConserved(max, threadCount, pollerCount, [], pools, events, i);
  }

  ghost predicate WithinLimit(max: nat, a: Pool) {
    forall p :: 0 <= p < |a.pollers| && a.pollers[p].Polling? ==> a.pollers[p].reserved <= max
  }

  /** No poll ever asks for more than the configured maximum, nor, after a first start, than there are free
      executors. */
  lemma {:induction false} PollsWithinLimit(max: nat, threadCount: nat, pollerCount: nat, pools: seq<Pool>, events: seq<Event>, i: nat)
    requires Trace(max, pools, events) && pools[0] == Started(threadCount, pollerCount, []) && i <= |events|
    ensures WithinLimit(max, pools[i])
    ensures forall p :: 0 <= p < |pools[i].pollers| ==> Holds(pools[i].pollers[p]) <= threadCount - Working(pools[i].executors)
  {
    if i > 0 {
      PollsWithinLimit(max, threadCount, pollerCount, pools, events, i - 1);
      assert Happens(max, pools[i - 1], events[i - 1], pools[i]);
      StepKeepsLimit(max, pools[i - 1], events[i - 1], pools[i]);
    }
    SlotsConserved(max, threadCount, pollerCount, [], pools, events, i);
    forall p | 0 <= p < |pools[i].pollers| ensures Holds(pools[i].pollers[p]) <= Reserved(pools[i].pollers) {
      OneOfReserved(pools[i].pollers, p);
    }
  }

  lemma StepKeepsLimit(max: nat, a: Pool, e: Event, b: Pool)
    requires Happens(max, a, e, b) && WithinLimit(max, a)
    ensures WithinLimit(max, b)
  {
  }

  lemma {:induction false} OneOfReserved(pollers: seq<Poller>, p: nat)
    requires p < |pollers|
    ensures Holds(pollers[p]) <= Reserved(pollers)
  {
    if p < |pollers| - 1 {
      OneOfReserved(pollers[..|pollers| - 1], p);
    }
  }

  ghost predicate AlwaysEnough(max: nat, threadCount: nat, pollerCount: nat, queue: seq<StepExecution>) {
    forall pools: seq<Pool>, events: seq<Event>, i: nat ::
      Trace(max, pools, events) && pools[0] == Started(threadCount, pollerCount, queue) && i <= |events| ==> Enough(pools[i])
  }

  /** One poller has claimed `k` steps one after the other and nobody has executed any yet. */
  function Filled(threadCount: nat, pollerCount: nat, queue: seq<StepExecution>, step: StepExecution, k: nat): Pool
    requires k <= threadCount
  {
    var a, more := Started(threadCount, pollerCount, queue), seq(k, i => step);
    a.(shared := Shared(threadCount - k, queue + more, false), entered := queue + more)
  }

  lemma OneMoreEvent(max: nat, pools: seq<Pool>, events: seq<Event>, e: Event, b: Pool)
    requires Trace(max, pools, events) && Happens(max, pools[|events|], e, b)
    ensures Trace(max, pools + [b], events + [e])
  {
    var p', e' := pools + [b], events + [e];
    forall i | 0 <= i < |e'| ensures Happens(max, p'[i], e'[i], p'[i + 1]) {
      if i < |events| {
        assert Happens(max, pools[i], events[i], pools[i + 1]);
      }
    }
  }

  /** The poller's round: past its check, all the slots it can take, and one step in return. */
  lemma OneRound(max: nat, a: Pool, step: StepExecution, b: Pool) returns (cleared: Pool, polling: Pool)
    requires max >= 1 && a.pollers != [] && a.pollers[0].Checking? && !a.shared.stopping && a.shared.idle >= 1
    requires b == a.(shared := Shared(a.shared.idle - 1, a.shared.queue + [step], false), entered := a.entered + [step])
    ensures Happens(max, a, Passes(0), cleared) && Happens(max, cleared, Reserves(0), polling)
    ensures Happens(max, polling, PollReturns(0, [step]), b)
  {
    cleared := a.(pollers := a.pollers[0 := Cleared]);
    var n := SlotsTaken(a.shared, max).value;
    polling := cleared.(shared := Reserve(a.shared, max), pollers := cleared.pollers[0 := Polling(n)]);
    assert polling.pollers[0 := Checking] == a.pollers;
  }

  lemma {:induction false} FillUp(max: nat, threadCount: nat, pollerCount: nat, queue: seq<StepExecution>, step: StepExecution, k: nat)
    returns (pools: seq<Pool>, events: seq<Event>)
    requires max >= 1 && pollerCount >= 1 && k <= threadCount
    ensures Trace(max, pools, events) && pools[0] == Started(threadCount, pollerCount, queue)
    ensures pools[|events|] == Filled(threadCount, pollerCount, queue, step, k)
    decreases k
  {
    if k == 0 {
      pools, events := [Started(threadCount, pollerCount, queue)], [];
    } else {
      pools, events := FillUp(max, threadCount, pollerCount, queue, step, k - 1);
      var a, b := Filled(threadCount, pollerCount, queue, step, k - 1), Filled(threadCount, pollerCount, queue, step, k);
      assert seq(k, i => step) == seq(k - 1, i => step) + [step];
      assert b.shared.queue == a.shared.queue + [step];
      var cleared, polling := OneRound(max, a, step, b);
      OneMoreEvent(max, pools, events, Passes(0), cleared);
      OneMoreEvent(max, pools + [cleared], events + [Passes(0)], Reserves(0), polling);
      OneMoreEvent(max, pools + [cleared] + [polling], events + [Passes(0)] + [Reserves(0)], PollReturns(0, [step]), b);
      pools, events := pools + [cleared] + [polling] + [b], events + [Passes(0)] + [Reserves(0)] + [PollReturns(0, [step])];
    }
  }

  /** Nobody can poll: there is no poller, or a poll may ask for nothing. */
  ghost predicate Idling(max: nat, a: Pool) {
    (a.pollers == [] || max == 0) && WithinLimit(max, a)
  }

  lemma IdlingKeepsIdle(max: nat, a: Pool, e: Event, b: Pool)
    requires Happens(max, a, e, b) && Idling(max, a)
    ensures Idling(max, b) && b.shared.idle >= a.shared.idle
  {
  }

  lemma {:induction false} IdlingStaysEnough(max: nat, threadCount: nat, pollerCount: nat, queue: seq<StepExecution>,
                                             pools: seq<Pool>, events: seq<Event>, i: nat)
    requires Trace(max, pools, events) && pools[0] == Started(threadCount, pollerCount, queue) && i <= |events|
    requires max == 0 || pollerCount == 0
    ensures Idling(max, pools[i]) && pools[i].shared.idle >= threadCount
  {
    if i > 0 {
      IdlingStaysEnough(max, threadCount, pollerCount, queue, pools, events, i - 1);
      assert Happens(max, pools[i - 1], events[i - 1], pools[i]);
      IdlingKeepsIdle(max, pools[i - 1], events[i - 1], pools[i]);
    }
  }

  lemma StartedPools(max: nat, threadCount: nat, pollerCount: nat, queue: seq<StepExecution>)
    requires AlwaysEnough(max, threadCount, pollerCount, queue)
    ensures |queue| <= threadCount
  {
    var pools, events: seq<Event> := [Started(threadCount, pollerCount, queue)], [];
    assert Trace(max, pools, events) && Enough(pools[0]);
    StartedAccounts(threadCount, pollerCount, queue);
    SlotsConserved(max, threadCount, pollerCount, queue, pools, events, 0);
    NothingReserved(pools[0].pollers);
    NothingInHand(pools[0].executors);
  }

  lemma LeftoversOvercommit(max: nat, threadCount: nat, pollerCount: nat, queue: seq<StepExecution>)
    requires max >= 1 && pollerCount >= 1 && queue != []
    ensures !AlwaysEnough(max, threadCount, pollerCount, queue)
  {
    var pools, events := FillUp(max, threadCount, pollerCount, queue, queue[0], threadCount);
    var i := |events|;
    NothingInHand(pools[i].executors);
    assert |pools[i].shared.queue| > |pools[i].executors|;
    assert !Enough(pools[i]);
  }

  /** `start` gives every executor a slot whether or not steps are still queued. The pool keeps to its promise
      never to claim more than it can execute, in every interleaving from a start on a given queue, exactly
      when the queue is empty, or when nobody can poll and there are executors for all that is queued. */
  lemma EnoughExactly(max: nat, threadCount: nat, pollerCount: nat, queue: seq<StepExecution>)
    ensures AlwaysEnough(max, threadCount, pollerCount, queue)
       <==> queue == [] || ((max == 0 || pollerCount == 0) && |queue| <= threadCount)
  {
    if queue == [] || ((max == 0 || pollerCount == 0) && |queue| <= threadCount) {
      forall pools: seq<Pool>, events: seq<Event>, i: nat
        | Trace(max, pools, events) && pools[0] == Started(threadCount, pollerCount, queue) && i <= |events|
        ensures Enough(pools[i])
      {
        SlotsConserved(max, threadCount, pollerCount, queue, pools, events, i);
        if queue != [] {
          IdlingStaysEnough(max, threadCount, pollerCount, queue, pools, events, i);
        }
      }
    } else if max >= 1 && pollerCount >= 1 {
      LeftoversOvercommit(max, threadCount, pollerCount, queue);
    } else if AlwaysEnough(max, threadCount, pollerCount, queue) {
      StartedPools(max, threadCount, pollerCount, queue);
    }
  }

  /* ---- stopping ---- */

  ghost predicate AllGone(a: Pool) {
    forall i :: 0 <= i < |a.executors| ==> a.executors[i].ExecutorGone?
  }

  /** With every executor gone, nothing is taken and nothing finishes any more. */
  lemma GoneStays(max: nat, a: Pool, e: Event, b: Pool)
    requires Happens(max, a, e, b) && AllGone(a)
    ensures AllGone(b) && b.taken == a.taken && b.finished == a.finished
  {
  }

  lemma {:induction false} GoneForGood(max: nat, pools: seq<Pool>, events: seq<Event>, i: nat, j: nat)
    requires Trace(max, pools, events) && i <= j <= |events| && AllGone(pools[i])
    ensures AllGone(pools[j]) && pools[j].taken == pools[i].taken && pools[j].finished == pools[i].finished
    decreases j - i
  {
    if i < j {
      GoneForGood(max, pools, events, i, j - 1);
      assert Happens(max, pools[j - 1], events[j - 1], pools[j]);
      GoneStays(max, pools[j - 1], events[j - 1], pools[j]);
    }
  }

  /** When the last executor leaves, everything put in the queue so far has been executed, each step once; all
      that can be left in the queue when the pool has stopped is what a poller puts there after that. */
  lemma StoppingExecutesEverything(max: nat, threadCount: nat, pollerCount: nat, queue: seq<StepExecution>,
                                   pools: seq<Pool>, events: seq<Event>, last: nat, j: nat)
    requires Trace(max, pools, events) && pools[0] == Started(threadCount, pollerCount, queue)
    requires last < j <= |events| && events[last].Leaves? && AllGone(pools[last + 1])
    ensures pools[last + 1].finished == multiset(pools[last + 1].entered)
    ensures pools[j].finished == pools[last + 1].finished
    ensures pools[j].entered == pools[last + 1].entered + pools[j].shared.queue
  {
    assert Happens(max, pools[last], events[last], pools[last + 1]);
    SlotsConserved(max, threadCount, pollerCount, queue, pools, events, last + 1);
    NothingInHand(pools[last + 1].executors);
    assert pools[last + 1].entered == pools[last + 1].taken;
    GoneForGood(max, pools, events, last + 1, j);
    SlotsConserved(max, threadCount, pollerCount, queue, pools, events, j);
  }

  /** Such a step is never executed by the stopped pool: a poll under way when `stop` is called can come back
      after the only executor has left. */
  lemma LateStepIsLeft(step: StepExecution) returns (pools: seq<Pool>, events: seq<Event>)
    ensures Trace(1, pools, events) && pools[0] == Started(1, 1, []) && |events| == 6
    ensures pools[6].shared.stopping && AllGone(pools[6]) && pools[6].pollers == [PollerGone]
    ensures pools[6].shared.queue == [step] && pools[6].finished == multiset{}
  {
    var none: multiset<StepExecution> := multiset{};
    var p3 := Pool(Shared(0, [], true), [Polling(1)], [Waiting], [], [], none);
    var p0, p1, p2 := StopWhilePolling(p3);
    var p4, p5, p6 := LateArrival(step, p3);
    pools := [p0, p1, p2, p3, p4, p5, p6];
    events := [Passes(0), Reserves(0), Stops, Leaves(0), PollReturns(0, [step]), Quits(0)];
  }

  lemma StopWhilePolling(p3: Pool) returns (p0: Pool, p1: Pool, p2: Pool)
    requires p3 == Pool(Shared(0, [], true), [Polling(1)], [Waiting], [], [], multiset{})
    ensures p0 == Started(1, 1, [])
    ensures Happens(1, p0, Passes(0), p1) && Happens(1, p1, Reserves(0), p2) && Happens(1, p2, Stops, p3)
  {
    var none: multiset<StepExecution> := multiset{};
    p0 := Started(1, 1, []);
    p1 := Pool(Shared(1, [], false), [Cleared], [Waiting], [], [], none);
    p2 := Pool(Shared(0, [], false), [Polling(1)], [Waiting], [], [], none);
    assert p0 == Pool(Shared(1, [], false), [Checking], [Waiting], [], [], none);
  }

  lemma LateArrival(step: StepExecution, p3: Pool) returns (p4: Pool, p5: Pool, p6: Pool)
    requires p3 == Pool(Shared(0, [], true), [Polling(1)], [Waiting], [], [], multiset{})
    ensures Happens(1, p3, Leaves(0), p4) && Happens(1, p4, PollReturns(0, [step]), p5) && Happens(1, p5, Quits(0), p6)
    ensures p6 == Pool(Shared(0, [step], true), [PollerGone], [ExecutorGone], [step], [], multiset{})
  {
    var none: multiset<StepExecution> := multiset{};
    p4 := Pool(Shared(0, [], true), [Polling(1)], [ExecutorGone], [], [], none);
    p5 := Pool(Shared(0, [step], true), [Checking], [ExecutorGone], [step], [], none);
    p6 := Pool(Shared(0, [step], true), [PollerGone], [ExecutorGone], [step], [], none);
  }

  /* ---- which poller watches what ---- */

  predicate Watches(poller: nat, pollerCount: nat, n: nat) {
    pollerCount > 0 && n % pollerCount == poller
  }

  /** The numbers below `end` that are a poller's, in order. */
  function Watched(poller: nat, pollerCount: nat, end: nat): seq<nat> {
    if end == 0 then []
    else if Watches(poller, pollerCount, end - 1) then Watched(poller, pollerCount, end - 1) + [end - 1]
    else Watched(poller, pollerCount, end - 1)
  }

  /** The definitions a poller watches: every `pollerCount`-th one, from its own number on. */
  method Subset(pollerIndex: nat, pollerCount: nat, definitionCount: nat) returns (subset: seq<nat>)
    requires pollerIndex < pollerCount
    ensures subset == Watched(pollerIndex, pollerCount, definitionCount)
  {
    subset := [];
    var i := pollerIndex;
    FirstOwn(pollerIndex, pollerCount);
    NoneBetween(pollerIndex, pollerCount, 0, if i < definitionCount then i else definitionCount);
    while i < definitionCount
      invariant Watches(pollerIndex, pollerCount, i)
      invariant subset == Watched(pollerIndex, pollerCount, if i < definitionCount then i else definitionCount)
      decreases definitionCount - i
    {
      NextOwn(pollerIndex, pollerCount, i);
      NoneBetween(pollerIndex, pollerCount, i + 1, if i + pollerCount < definitionCount then i + pollerCount else definitionCount);
      subset := subset + [i];
      i := i + pollerCount;
    }
  }

  lemma {:induction false} NoneBetween(poller: nat, pollerCount: nat, from: nat, end: nat)
    requires from <= end && forall n: nat :: from <= n < end ==> !Watches(poller, pollerCount, n)
    ensures Watched(poller, pollerCount, end) == Watched(poller, pollerCount, from)
    decreases end
  {
    if from < end {
      NoneBetween(poller, pollerCount, from, end - 1);
    }
  }

  lemma FirstOwn(poller: nat, pollerCount: nat)
    requires poller < pollerCount
    ensures Watches(poller, pollerCount, poller) && forall n: nat :: n < poller ==> !Watches(poller, pollerCount, n)
  {
    SmallRemainder(poller, pollerCount);
    forall n: nat | n < poller ensures !Watches(poller, pollerCount, n) {
      SmallRemainder(n, pollerCount);
    }
  }

  lemma NextOwn(poller: nat, pollerCount: nat, i: nat)
    requires Watches(poller, pollerCount, i)
    ensures Watches(poller, pollerCount, i + pollerCount)
    ensures forall n: nat :: i < n < i + pollerCount ==> !Watches(poller, pollerCount, n)
  {
    OneRoundOn(i, pollerCount);
  }

  lemma {:induction false} WatchedHolds(poller: nat, pollerCount: nat, end: nat, n: nat)
    ensures n in Watched(poller, pollerCount, end) <==> n < end && Watches(poller, pollerCount, n)
  {
    if end > 0 {
      WatchedHolds(poller, pollerCount, end - 1, n);
    }
  }

  /** The remainder comes back after a round, and not before. */
  lemma OneRoundOn(i: nat, p: nat)
    requires p > 0
    ensures (i + p) % p == i % p
    ensures forall n: nat :: i < n < i + p ==> n % p != i % p
  {
    SameRemainder(i + p, i, p);
    forall n: nat | i < n < i + p ensures n % p != i % p {
      SameRemainder(n, i, p);
    }
  }

  lemma SameRemainder(n: nat, i: nat, p: nat)
    requires p > 0 && i < n <= i + p
    ensures n % p == i % p <==> n == i + p
  {
    var d, e := n / p - i / p, n % p - i % p;
    assert n == (n / p) * p + n % p && i == (i / p) * p + i % p;
    Spread(n / p, i / p, p);
    assert n - i == d * p + e;
    if e == 0 {
      WholeRounds(d, p, n - i);
    } else if n == i + p {
      assert e == (1 - d) * p by { Spread(1, d, p); }
      if d <= 0 {
        Larger(1 - d, p);
      } else if d >= 2 {
        Larger(d - 1, p);
        Spread(d, 1, p);
      }
    }
  }

  lemma Spread(a: int, b: int, p: int)
    ensures a * p - b * p == (a - b) * p
  {
  }

  lemma Larger(a: int, p: int)
    requires a >= 1 && p > 0
    ensures a * p >= p
  {
  }

  lemma WholeRounds(d: int, p: int, n: int)
    requires n == d * p && 0 < n <= p
    ensures n == p
  {
    if d >= 2 {
      Larger(d - 1, p);
      Spread(d, 1, p);
    } else if d <= 0 {
      NoRound(d, p);
    }
  }

  lemma NoRound(d: int, p: int)
    requires d <= 0 && p > 0
    ensures d * p <= 0
  {
  }

  /** No two pollers share a definition, and none is left out. */
  lemma EachWatchedOnce(pollerCount: nat, definitionCount: nat, n: nat) returns (p: nat)
    requires pollerCount > 0 && n < definitionCount
    ensures p < pollerCount
    ensures forall q: nat :: n in Watched(q, pollerCount, definitionCount) <==> q == p
  {
    p := n % pollerCount;
    forall q: nat ensures n in Watched(q, pollerCount, definitionCount) <==> q == p {
      WatchedHolds(q, pollerCount, definitionCount, n);
    }
  }

  lemma SmallRemainder(n: nat, p: nat)
    requires n < p
    ensures n % p == n
  {
  }
}
