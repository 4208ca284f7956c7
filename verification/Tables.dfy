/** The four tables, the changes staged on them, and what a transaction can read. */
module Tables {
  import opened Prelude
  import opened Domain

  datatype DefinitionKey = DefinitionKey(name: string, version: int)

  datatype StepKey = StepKey(executionId: string, stepName: string, attempt: int)

  datatype Store = Store(
    definitions: map<DefinitionKey, WorkflowDefinition>,
    executions: map<string, Execution>,
    locks: map<DefinitionKey, SingletonLock>,
    steps: map<StepKey, StepExecution>)

  /** No rows; as a change, the one that writes nothing. */
  const EMPTY := Store(map[], map[], map[], map[])

  function KeyOfDefinition(d: WorkflowDefinition): DefinitionKey {
    DefinitionKey(d.workflowName, d.workflowVersion)
  }

  function KeyOfLock(l: SingletonLock): DefinitionKey {
    DefinitionKey(l.workflowName, l.workflowVersion)
  }

  function KeyOfStep(r: StepExecution): StepKey {
    StepKey(r.executionId, r.stepName, r.attempt)
  }

  /** The key an execution's definition and lock are filed under. */
  function WorkflowOf(e: Execution): DefinitionKey {
    DefinitionKey(e.workflowName, e.workflowVersion)
  }

  /** The key of the step row an execution currently points at. */
  function CurrentKey(e: Execution): StepKey {
    StepKey(e.id, e.currentStepName, e.currentStepAttempt)
  }

  /** Every row is filed under the key computed from its own fields. */
  ghost predicate Keyed(s: Store) {
    && (forall k :: k in s.definitions ==> KeyOfDefinition(s.definitions[k]) == k)
    && (forall id :: id in s.executions ==> s.executions[id].id == id)
    && (forall k :: k in s.locks ==> KeyOfLock(s.locks[k]) == k)
    && (forall k :: k in s.steps ==> KeyOfStep(s.steps[k]) == k)
  }

  /** The tables after a set of staged writes; a later write of a key replaces an earlier one. */
  function Apply(s: Store, writes: Store): Store {
    Store(s.definitions + writes.definitions,
          s.executions + writes.executions,
          s.locks + writes.locks,
          s.steps + writes.steps)
  }

  function PutDefinition(s: Store, d: WorkflowDefinition): Store {
    s.(definitions := s.definitions[KeyOfDefinition(d) := d])
  }

  function PutExecution(s: Store, e: Execution): Store {
    s.(executions := s.executions[e.id := e])
  }

  function PutLock(s: Store, l: SingletonLock): Store {
    s.(locks := s.locks[KeyOfLock(l) := l])
  }

  function PutStep(s: Store, r: StepExecution): Store {
    s.(steps := s.steps[KeyOfStep(r) := r])
  }

  lemma ApplyNothing(s: Store)
    ensures Apply(s, EMPTY) == s
    ensures Apply(EMPTY, s) == s
  {
    assert s.definitions + map[] == s.definitions && map[] + s.definitions == s.definitions;
    assert s.executions + map[] == s.executions && map[] + s.executions == s.executions;
    assert s.locks + map[] == s.locks && map[] + s.locks == s.locks;
    assert s.steps + map[] == s.steps && map[] + s.steps == s.steps;
  }

  lemma MergeAssociative<K, V>(s: map<K, V>, a: map<K, V>, b: map<K, V>)
    ensures (s + a) + b == s + (a + b)
  {
  }

  lemma ApplyAssociative(s: Store, a: Store, b: Store)
    ensures Apply(Apply(s, a), b) == Apply(s, Apply(a, b))
  {
    MergeAssociative(s.definitions, a.definitions, b.definitions);
    MergeAssociative(s.executions, a.executions, b.executions);
    MergeAssociative(s.locks, a.locks, b.locks);
    MergeAssociative(s.steps, a.steps, b.steps);
  }

  /** Staging one more row and then applying is applying and then putting that row. */
  lemma ApplyPuts(s: Store, w: Store)
    ensures forall d :: Apply(s, PutDefinition(w, d)) == PutDefinition(Apply(s, w), d)
    ensures forall e :: Apply(s, PutExecution(w, e)) == PutExecution(Apply(s, w), e)
    ensures forall l :: Apply(s, PutLock(w, l)) == PutLock(Apply(s, w), l)
    ensures forall r :: Apply(s, PutStep(w, r)) == PutStep(Apply(s, w), r)
  {
    forall d ensures Apply(s, PutDefinition(w, d)) == PutDefinition(Apply(s, w), d) {
      assert s.definitions + w.definitions[KeyOfDefinition(d) := d] == (s.definitions + w.definitions)[KeyOfDefinition(d) := d];
    }
    forall e ensures Apply(s, PutExecution(w, e)) == PutExecution(Apply(s, w), e) {
      assert s.executions + w.executions[e.id := e] == (s.executions + w.executions)[e.id := e];
    }
    forall l ensures Apply(s, PutLock(w, l)) == PutLock(Apply(s, w), l) {
      assert s.locks + w.locks[KeyOfLock(l) := l] == (s.locks + w.locks)[KeyOfLock(l) := l];
    }
    forall r ensures Apply(s, PutStep(w, r)) == PutStep(Apply(s, w), r) {
      assert s.steps + w.steps[KeyOfStep(r) := r] == (s.steps + w.steps)[KeyOfStep(r) := r];
    }
  }

  /* ---- reads ---- */

  /** The three queries the orchestrator makes on the step table. */
  datatype Query =
    | ByWorkflow(name: string, version: int, status: StepStatus)
    | ByExecution(id: string)
    | ByStatus(status: StepStatus)

  predicate Matches(q: Query, r: StepExecution) {
    match q
    case ByWorkflow(name, version, status) => r.workflowName == name && r.workflowVersion == version && r.status == status
    case ByExecution(id) => r.executionId == id
    case ByStatus(status) => r.status == status
  }

  function Select(s: Store, q: Query): map<StepKey, StepExecution> {
    map k | k in s.steps && Matches(q, s.steps[k]) :: s.steps[k]
  }

  /** A query returns its rows as a list, in an order the store chooses. */
  ghost predicate Enumerates(rows: seq<StepExecution>, selected: map<StepKey, StepExecution>) {
    && (forall i, j :: 0 <= i < j < |rows| ==> KeyOfStep(rows[i]) != KeyOfStep(rows[j]))
    && (forall i :: 0 <= i < |rows| ==> KeyOfStep(rows[i]) in selected && selected[KeyOfStep(rows[i])] == rows[i])
    && (forall k :: k in selected ==> selected[k] in rows)
  }

  lemma EnumeratesOneMore(rows: seq<StepExecution>, selected: map<StepKey, StepExecution>, k: StepKey, r: StepExecution)
    requires Enumerates(rows, selected) && k !in selected && KeyOfStep(r) == k
    ensures Enumerates(rows + [r], selected[k := r])
  {
    var all, more := rows + [r], selected[k := r];
    forall x | x in more ensures more[x] in all {
      if x != k {
        assert more[x] in rows;
      }
    }
  }

  datatype Read =
    | DefinitionRow(definition: DefinitionKey)
    | ExecutionRow(execution: string)
    | LockRow(lock: DefinitionKey)
    | StepRow(step: StepKey)
    | StepQuery(query: Query)

  /** The two stores answer a read alike. */
  predicate Same(s: Store, t: Store, r: Read) {
    match r
    case DefinitionRow(k) => Lookup(s.definitions, k) == Lookup(t.definitions, k)
    case ExecutionRow(id) => Lookup(s.executions, id) == Lookup(t.executions, id)
    case LockRow(k) => Lookup(s.locks, k) == Lookup(t.locks, k)
    case StepRow(k) => Lookup(s.steps, k) == Lookup(t.steps, k)
    case StepQuery(q) => Select(s, q) == Select(t, q)
  }

  predicate Agree(s: Store, t: Store, observed: set<Read>) {
    forall r :: r in observed ==> Same(s, t, r)
  }

  lemma AgreesWithItself(s: Store, observed: set<Read>)
    ensures Agree(s, s, observed)
  {
  }
}
