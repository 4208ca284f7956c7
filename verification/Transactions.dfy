/** The store's transactions, as the orchestrator relies on them: snapshot reads that see the transaction's
    own staged puts, every read recorded, and a commit refused when an answer it got has changed. */
module Transactions {
  import opened Prelude
  import opened Domain
  import opened Tables

  /** A call that throws, or returns a value. */
  datatype Result<+T> = Threw | Returned(value: T)

  class Transaction {
    const snapshot: Store
    var writes: Store
    var observed: set<Read>

    constructor (snapshot: Store)
      requires Keyed(snapshot)
      ensures Valid() && this.snapshot == snapshot && writes == EMPTY && observed == {}
      ensures View() == snapshot
    {
      this.snapshot := snapshot;
      this.writes := EMPTY;
      this.observed := {};
      new;
      ApplyNothing(snapshot);
    }

    ghost predicate Valid()
      reads `writes
    {
      Keyed(snapshot) && Keyed(writes)
    }

    /** The tables as this transaction sees them. */
    function View(): Store
      reads `writes
    {
      Apply(snapshot, writes)
    }

    method GetDefinition(key: DefinitionKey) returns (row: Option<WorkflowDefinition>)
      modifies this`observed
      ensures row == Lookup(View().definitions, key)
      ensures observed == old(observed) + {DefinitionRow(key)}
    {
      observed := observed + {DefinitionRow(key)};
      row := Lookup(View().definitions, key);
    }

    method GetExecution(id: string) returns (row: Option<Execution>)
      modifies this`observed
      ensures row == Lookup(View().executions, id)
      ensures observed == old(observed) + {ExecutionRow(id)}
    {
      observed := observed + {ExecutionRow(id)};
      row := Lookup(View().executions, id);
    }

    method GetLock(key: DefinitionKey) returns (row: Option<SingletonLock>)
      modifies this`observed
      ensures row == Lookup(View().locks, key)
      ensures observed == old(observed) + {LockRow(key)}
    {
      observed := observed + {LockRow(key)};
      row := Lookup(View().locks, key);
    }

    method GetStep(key: StepKey) returns (row: Option<StepExecution>)
      modifies this`observed
      ensures row == Lookup(View().steps, key)
      ensures observed == old(observed) + {StepRow(key)}
    {
      observed := observed + {StepRow(key)};
      row := Lookup(View().steps, key);
    }

    /** The rows matching a query, in no particular order. */
    method Query(q: Query) returns (rows: seq<StepExecution>)
      requires Valid()
      modifies this`observed
      ensures Enumerates(rows, Select(View(), q))
      ensures observed == old(observed) + {StepQuery(q)}
    {
      observed := observed + {StepQuery(q)};
      var selected := Select(View(), q);
      var todo := selected.Keys;
      rows := [];
      while todo != {}
        invariant observed == old(observed) + {StepQuery(q)}
        invariant todo <= selected.Keys
        invariant Enumerates(rows, selected - todo)
      {
        var k :| k in todo;
        EnumeratesOneMore(rows, selected - todo, k, selected[k]);
        assert selected - (todo - {k}) == (selected - todo)[k := selected[k]];
        rows := rows + [selected[k]];
        todo := todo - {k};
      }
      assert selected - todo == selected;
    }

    method StageDefinition(d: WorkflowDefinition)
      requires Valid()
      modifies this`writes
      ensures Valid() && writes == PutDefinition(old(writes), d)
    {
      writes := PutDefinition(writes, d);
    }

    method StageExecution(e: Execution)
      requires Valid()
      modifies this`writes
      ensures Valid() && writes == PutExecution(old(writes), e)
    {
      writes := PutExecution(writes, e);
    }

    method StageLock(l: SingletonLock)
      requires Valid()
      modifies this`writes
      ensures Valid() && writes == PutLock(old(writes), l)
    {
      writes := PutLock(writes, l);
    }

    method StageStep(r: StepExecution)
      requires Valid()
      modifies this`writes
      ensures Valid() && writes == PutStep(old(writes), r)
    {
      writes := PutStep(writes, r);
    }
  }

  class Database {
    var committed: Store

    constructor ()
      ensures committed == EMPTY
    {
      committed := EMPTY;
    }

    method Begin() returns (tx: Transaction)
      requires Keyed(committed)
      ensures fresh(tx) && tx.Valid() && tx.snapshot == committed && tx.writes == EMPTY && tx.observed == {}
      ensures tx.View() == committed
    {
      tx := new Transaction(committed);
    }

    /** Optimistic validation: the commit goes through exactly when every read would be answered now as it was. */
    method Commit(tx: Transaction) returns (ok: bool)
      requires tx.Valid() && Keyed(committed)
      modifies this
      ensures ok <==> Agree(tx.snapshot, old(committed), tx.observed)
      ensures committed == if ok then Apply(old(committed), tx.writes) else old(committed)
      ensures Keyed(committed)
    {
      ok := Agree(tx.snapshot, committed, tx.observed);
      if ok {
        committed := Apply(committed, tx.writes);
      }
    }
  }
}
