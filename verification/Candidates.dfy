/** Poll-and-claim: the order in which candidates are considered, and which of them are claimed. */
module Candidates {
  import opened Prelude
  import opened Text
  import opened Domain
  import opened Tables
  import opened Operations

  predicate TimeLess(a: Option<Time>, b: Option<Time>) {
    b.Some? && (a.None? || a.value < b.value)
  }

  /** The comparator the candidates are sorted with. */
  predicate Before(a: StepExecution, b: StepExecution) {
    if a.createdAt != b.createdAt then TimeLess(a.createdAt, b.createdAt)
    else if a.executionId != b.executionId then StringLess(a.executionId, b.executionId)
    else if a.stepName != b.stepName then StringLess(a.stepName, b.stepName)
    else a.attempt < b.attempt
  }

  lemma BeforeTotal(a: StepExecution, b: StepExecution)
    requires KeyOfStep(a) != KeyOfStep(b)
    ensures Before(a, b) <==> !Before(b, a)
  {
    StringLessTotal(a.executionId, b.executionId);
    StringLessTotal(a.stepName, b.stepName);
  }

  lemma BeforeTransitive(a: StepExecution, b: StepExecution, c: StepExecution)
    requires Before(a, b) && Before(b, c)
    ensures Before(a, c)
  {
    StringLessTotal(a.executionId, b.executionId);
    StringLessTotal(b.executionId, c.executionId);
    StringLessTotal(a.stepName, b.stepName);
    StringLessTotal(b.stepName, c.stepName);
    if StringLess(a.executionId, b.executionId) && StringLess(b.executionId, c.executionId) {
      StringLessTransitive(a.executionId, b.executionId, c.executionId);
      StringLessTotal(a.executionId, c.executionId);
    }
    if StringLess(a.stepName, b.stepName) && StringLess(b.stepName, c.stepName) {
      StringLessTransitive(a.stepName, b.stepName, c.stepName);
      StringLessTotal(a.stepName, c.stepName);
    }
  }

  /** The rows agree on the `n`-th of what they are ordered by: time of creation, execution, step, attempt. */
  predicate AlikeIn(a: StepExecution, b: StepExecution, n: nat) {
    (n == 0 && a.createdAt == b.createdAt) || (n == 1 && a.executionId == b.executionId)
    || (n == 2 && a.stepName == b.stepName) || (n == 3 && a.attempt == b.attempt)
  }

  ghost predicate LessIn(a: StepExecution, b: StepExecution, n: nat) {
    (n == 0 && b.createdAt.Some? && (a.createdAt.Some? ==> a.createdAt.value < b.createdAt.value))
    || (n == 1 && exists k: nat :: LessAt(a.executionId, b.executionId, k))
    || (n == 2 && exists k: nat :: LessAt(a.stepName, b.stepName, k))
    || (n == 3 && a.attempt < b.attempt)
  }

  /** The comparator is the lexicographic order: the rows agree up to some point, and there the first is less. */
  lemma BeforeIsLexicographic(a: StepExecution, b: StepExecution)
    ensures Before(a, b) <==> exists n: nat :: n < 4 && LessIn(a, b, n) && forall m: nat :: m < n ==> AlikeIn(a, b, m)
  {
    LessWhereTheyDiffer(a.executionId, b.executionId);
    LessWhereTheyDiffer(a.stepName, b.stepName);
    StringLessTotal(a.executionId, b.executionId);
    StringLessTotal(a.stepName, b.stepName);
    assert LessIn(a, b, 0) <==> TimeLess(a.createdAt, b.createdAt);
    assert LessIn(a, b, 1) <==> StringLess(a.executionId, b.executionId);
    assert LessIn(a, b, 2) <==> StringLess(a.stepName, b.stepName);
    assert LessIn(a, b, 3) <==> a.attempt < b.attempt;
    assert AlikeIn(a, b, 0) <==> a.createdAt == b.createdAt;
    assert AlikeIn(a, b, 1) <==> a.executionId == b.executionId;
    assert AlikeIn(a, b, 2) <==> a.stepName == b.stepName;
  }

  ghost predicate Sorted(rows: seq<StepExecution>) {
    forall i, j :: 0 <= i < j < |rows| ==> Before(rows[i], rows[j])
  }

  ghost predicate DistinctKeys(rows: seq<StepExecution>) {
    forall i, j :: 0 <= i < j < |rows| ==> KeyOfStep(rows[i]) != KeyOfStep(rows[j])
  }

  /** std::sort of rows with distinct keys. */
  method SortCandidates(rows: seq<StepExecution>) returns (sorted: seq<StepExecution>)
    requires DistinctKeys(rows)
    ensures Sorted(sorted)
    ensures multiset(sorted) == multiset(rows)
  {
    sorted := [];
    for i := 0 to |rows|
      invariant Sorted(sorted)
      invariant multiset(sorted) == multiset(rows[..i])
    {
      assert rows[..i + 1] == rows[..i] + [rows[i]];
      forall r | r in sorted ensures KeyOfStep(r) != KeyOfStep(rows[i]) {
        assert r in multiset(rows[..i]);
      }
      sorted := Insert(sorted, rows[i]);
    }
    assert rows[..|rows|] == rows;
  }

  method Insert(sorted: seq<StepExecution>, r: StepExecution) returns (result: seq<StepExecution>)
    requires Sorted(sorted)
    requires forall x :: x in sorted ==> KeyOfStep(x) != KeyOfStep(r)
    ensures Sorted(result)
    ensures multiset(result) == multiset(sorted) + multiset{r}
  {
    var n := 0;
    while n < |sorted| && Before(sorted[n], r)
      invariant n <= |sorted|
      invariant forall i :: 0 <= i < n ==> Before(sorted[i], r)
    {
      n := n + 1;
    }
    result := sorted[..n] + [r] + sorted[n..];
    assert sorted == sorted[..n] + sorted[n..];
    forall j | n <= j < |sorted| ensures Before(r, sorted[j]) {
      BeforeTotal(sorted[n], r);
      if n < j {
        BeforeTransitive(r, sorted[n], sorted[j]);
      }
    }
    InsertSorted(sorted[..n], r, sorted[n..]);
  }

  lemma InsertSorted(front: seq<StepExecution>, r: StepExecution, back: seq<StepExecution>)
    requires Sorted(front + back)
    requires forall i :: 0 <= i < |front| ==> Before(front[i], r)
    requires forall j :: 0 <= j < |back| ==> Before(r, back[j])
    ensures Sorted(front + [r] + back)
  {
    var all, old_ := front + [r] + back, front + back;
    forall i, j | 0 <= i < j < |all| ensures Before(all[i], all[j]) {
      if i < |front| < j {
        assert Before(old_[i], old_[j - 1]);
      } else if j < |front| {
        assert Before(old_[i], old_[j]);
      } else if |front| < i {
        assert Before(old_[i - 1], old_[j - 1]);
      }
    }
  }

  /** The row that comes first in a non-empty set of rows with distinct keys. */
  ghost predicate IsFirst(r: StepExecution, rows: set<StepExecution>) {
    r in rows && forall x :: x in rows && x != r ==> Before(r, x)
  }

  ghost predicate KeysApart(rows: set<StepExecution>) {
    forall a, b :: a in rows && b in rows && a != b ==> KeyOfStep(a) != KeyOfStep(b)
  }

  lemma FirstExists(rows: set<StepExecution>) returns (r: StepExecution)
    requires rows != {} && KeysApart(rows)
    ensures IsFirst(r, rows)
  {
    r :| r in rows;
    if rows != {r} {
      var rest := rows - {r};
      var f := FirstExists(rest);
      BeforeTotal(r, f);
      if Before(f, r) {
        r := f;
      } else {
        forall x | x in rows && x != r ensures Before(r, x) {
          if x != f {
            BeforeTransitive(r, f, x);
          }
        }
      }
    }
  }

  /** The one sorted list of a set of rows. */
  ghost function InOrder(rows: set<StepExecution>): (list: seq<StepExecution>)
    requires KeysApart(rows)
    ensures |list| == |rows|
    ensures forall x :: x in list <==> x in rows
    ensures Sorted(list)
  {
    if rows == {} then []
    else
      assert exists f :: IsFirst(f, rows) by { var f := FirstExists(rows); }
      var f :| IsFirst(f, rows);
      [f] + InOrder(rows - {f})
  }

  lemma {:induction false} SortedUnique(a: seq<StepExecution>, b: seq<StepExecution>)
    requires Sorted(a) && Sorted(b)
    requires forall x :: x in a <==> x in b
    requires DistinctKeys(a) && DistinctKeys(b)
    ensures a == b
  {
    assert |a| > 0 ==> a[0] in b;
    assert |b| > 0 ==> b[0] in a;
    if |a| > 0 {
      if a[0] != b[0] {
        assert b[0] in a && a[0] in b;
        BeforeTotal(a[0], b[0]);
      }
      forall x ensures x in a[1..] <==> x in b[1..] {
        if x in a[1..] { assert x in a; }
        if x in b[1..] { assert x in b; }
      }
      SortedUnique(a[1..], b[1..]);
    }
  }

  /* ---- which rows a poll claims ---- */

  /** The open step rows of one workflow. */
  function OpenRows(s: Store, key: DefinitionKey): set<StepExecution> {
    set k | k in s.steps && WorkflowKey(s.steps[k]) == key && s.steps[k].Open() :: s.steps[k]
  }

  function WorkflowKey(r: StepExecution): DefinitionKey {
    DefinitionKey(r.workflowName, r.workflowVersion)
  }

  /** All open rows of the workflow, in the order a poll considers them. */
  ghost function CandidateList(s: Store, key: DefinitionKey): seq<StepExecution>
    requires Keyed(s)
  {
    InOrder(OpenRows(s, key))
  }

  /** The claimable rows among the candidates, at most `max` of them, in order. */
  function Chosen(rows: seq<StepExecution>, now: Time, max: nat): seq<StepExecution> {
    if rows == [] || max == 0 then []
    else if IsClaimable(rows[0], now) then [rows[0]] + Chosen(rows[1..], now, max - 1)
    else Chosen(rows[1..], now, max)
  }

  function ClaimedRow(r: StepExecution, workerId: string, now: Time, lease: Time): StepExecution {
    r.(status := StepStatus.Running, workerId := Some(workerId), leaseExpiresAt := Some(now + lease),
       failureReason := None, startedAt := Some(now))
  }

  predicate LeasesKnown(rule: LeaseRule, d: WorkflowDefinition, rows: seq<StepExecution>) {
    forall i :: 0 <= i < |rows| ==> LeaseOf(rule, d, rows[i].stepName).Some?
  }

  function ClaimAll(rule: LeaseRule, d: WorkflowDefinition, rows: seq<StepExecution>, workerId: string, now: Time): (c: seq<StepExecution>)
    requires LeasesKnown(rule, d, rows)
    ensures |c| == |rows|
    ensures forall i :: 0 <= i < |rows| ==> c[i] == ClaimedRow(rows[i], workerId, now, LeaseOf(rule, d, rows[i].stepName).value)
  {
    seq(|rows|, i requires 0 <= i < |rows| => ClaimedRow(rows[i], workerId, now, LeaseOf(rule, d, rows[i].stepName).value))
  }

  function PutSteps(s: Store, rows: seq<StepExecution>): Store {
    if rows == [] then s else PutStep(PutSteps(s, rows[..|rows| - 1]), rows[|rows| - 1])
  }

  ghost function Poll(rule: LeaseRule, s: Store, now: Time, name: string, version: int, workerId: string, max: nat): Outcome<seq<StepExecution>>
    requires Keyed(s)
  {
    var key := DefinitionKey(name, version);
    if !ValidNameAndVersion(name, version) || workerId == "" || max == 0 || key !in s.definitions then Thrown
    else
      var chosen := Chosen(CandidateList(s, key), now, max);
      if !LeasesKnown(rule, s.definitions[key], chosen) then Thrown
      else
        var claimed := ClaimAll(rule, s.definitions[key], chosen, workerId, now);
        Done(claimed, PutSteps(EMPTY, claimed))
  }
}
