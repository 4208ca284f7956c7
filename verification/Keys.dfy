/** The strings rows are filed under, and the ids executions are given. */
module Keys {
  import opened Prelude
  import opened Text
  import opened Domain
  import opened Tables
  import opened Rows

  /* ---- execution ids ---- */

  function HexChar(d: nat): (c: char)
    requires d < 16
    ensures c != ':' && c != '-'
  {
    if d < 10 then ('0' as int + d) as char else ('a' as int + (d - 10)) as char
  }

  /** printf's %0<width>x of a number that fits. */
  function Hex(n: nat, width: nat): (s: string)
    ensures |s| == width && forall i :: 0 <= i < |s| ==> s[i] != ':' && s[i] != '-'
    decreases width
  {
    if width == 0 then [] else Hex(n / 16, width - 1) + [HexChar(n % 16)]
  }

  function Pow16(k: nat): nat {
    if k == 0 then 1 else 16 * Pow16(k - 1)
  }

  lemma HexCharInjective(d: nat, e: nat)
    requires d < 16 && e < 16 && HexChar(d) == HexChar(e)
    ensures d == e
  {
  }

  lemma {:induction false} HexInjective(m: nat, n: nat, width: nat)
    requires m < Pow16(width) && n < Pow16(width) && Hex(m, width) == Hex(n, width)
    ensures m == n
    decreases width
  {
    if width > 0 {
      var a, b := Hex(m, width), Hex(n, width);
      assert a[..width - 1] == Hex(m / 16, width - 1) && b[..width - 1] == Hex(n / 16, width - 1);
      assert a[width - 1] == HexChar(m % 16) && b[width - 1] == HexChar(n % 16);
      HexCharInjective(m % 16, n % 16);
      HexInjective(m / 16, n / 16, width - 1);
    }
  }

  /** The random numbers an id is made from, after masking: the third carries the version, the fourth the
      variant of section 5.4 of RFC 9562. */
  datatype IdFields = IdFields(a: nat, b: nat, c: nat, d: nat, e: nat, f: nat)

  /** Six draws of 32 bits, masked. */
  function Masked(a: nat, b: nat, c: nat, d: nat, e: nat, f: nat): IdFields {
    IdFields(a, b % 0x10000, c % 0x1000 + 0x4000, d % 0x4000 + 0x8000, e, f % 0x10000)
  }

  function IdText(x: IdFields): string {
    Grouped(Hex(x.a, 8), Hex(x.b, 4), Hex(x.c, 4), Hex(x.d, 4), Hex(x.e, 8) + Hex(x.f, 4))
  }

  function GenerateExecutionId(a: nat, b: nat, c: nat, d: nat, e: nat, f: nat): string {
    IdText(Masked(a, b, c, d, e, f))
  }

  lemma FirstOfFour(n: nat)
    requires n < 0x10000
    ensures Hex(n, 4)[0] == HexChar(n / 4096)
  {
    var n1 := n / 16;
    var n2 := n1 / 16;
    var n3 := n2 / 16;
    assert n3 == n / 4096 && n3 < 16;
    assert Hex(n3, 1) == [HexChar(n3)];
    assert Hex(n2, 2)[0] == Hex(n3, 1)[0];
    assert Hex(n1, 3)[0] == Hex(n2, 2)[0];
    assert Hex(n, 4)[0] == Hex(n1, 3)[0];
  }

  /** Five groups joined by hyphens. */
  function Grouped(a: string, b: string, c: string, d: string, e: string): string {
    a + ("-" + (b + ("-" + (c + ("-" + (d + ("-" + e)))))))
  }

  lemma GroupedShape(a: string, b: string, c: string, d: string, e: string)
    requires |a| == 8 && |b| == |c| == |d| == 4 && |e| == 12
    requires ':' !in a && ':' !in b && ':' !in c && ':' !in d && ':' !in e
    ensures var id := Grouped(a, b, c, d, e);
            && |id| == 36 && id[8] == '-' && id[13] == '-' && id[18] == '-' && id[23] == '-' && ':' !in id
            && id[14] == c[0] && id[19] == d[0]
  {
  }

  /** The length of an id, the places of its hyphens, and its version and variant digits; no id has a colon. */
  lemma IdShape(a: nat, b: nat, c: nat, d: nat, e: nat, f: nat)
    ensures var id := GenerateExecutionId(a, b, c, d, e, f);
            && |id| == 36 && id[8] == '-' && id[13] == '-' && id[18] == '-' && id[23] == '-' && ':' !in id
            && id[14] == '4' && id[19] in {'8', '9', 'a', 'b'}
  {
    var x := Masked(a, b, c, d, e, f);
    VersionDigit(x.c, c);
    VariantDigit(x.d, d);
    GroupedShape(Hex(x.a, 8), Hex(x.b, 4), Hex(x.c, 4), Hex(x.d, 4), Hex(x.e, 8) + Hex(x.f, 4));
  }

  lemma VersionDigit(n: nat, c: nat)
    requires n == c % 0x1000 + 0x4000
    ensures Hex(n, 4)[0] == '4'
  {
    FirstOfFour(n);
  }

  lemma VariantDigit(n: nat, d: nat)
    requires n == d % 0x4000 + 0x8000
    ensures Hex(n, 4)[0] in {'8', '9', 'a', 'b'}
  {
    FirstOfFour(n);
    assert 8 <= n / 4096 <= 11;
  }

  lemma SameCut(p: string, r: string, q: string, t: string)
    requires |p| == |q| && p + r == q + t
    ensures p == q && r == t
  {
    assert (p + r)[..|p|] == p && (q + t)[..|q|] == q;
    assert (p + r)[|p|..] == r && (q + t)[|q|..] == t;
  }

  lemma SameGroup(p: string, r: string, q: string, t: string)
    requires |p| == |q| && p + ("-" + r) == q + ("-" + t)
    ensures p == q && r == t
  {
    SameCut(p, "-" + r, q, "-" + t);
    SameCut("-", r, "-", t);
  }

  ghost predicate Drawn(x: IdFields) {
    x.a < Pow16(8) && x.b < Pow16(4) && x.c < Pow16(4) && x.d < Pow16(4) && x.e < Pow16(8) && x.f < Pow16(4)
  }

  lemma MaskedIsDrawn(a: nat, b: nat, c: nat, d: nat, e: nat, f: nat)
    requires a < 0x1_0000_0000 && e < 0x1_0000_0000
    ensures Drawn(Masked(a, b, c, d, e, f))
  {
    assert Pow16(4) == 0x10000;
    assert Pow16(8) == 0x1_0000_0000;
  }

  /** Different masked draws give different ids. */
  lemma IdsApart(x: IdFields, y: IdFields)
    requires Drawn(x) && Drawn(y)
    ensures IdText(x) == IdText(y) <==> x == y
  {
    if IdText(x) == IdText(y) {
      var e, e' := Hex(x.e, 8) + Hex(x.f, 4), Hex(y.e, 8) + Hex(y.f, 4);
      var d, d' := Hex(x.d, 4) + ("-" + e), Hex(y.d, 4) + ("-" + e');
      var c, c' := Hex(x.c, 4) + ("-" + d), Hex(y.c, 4) + ("-" + d');
      var b, b' := Hex(x.b, 4) + ("-" + c), Hex(y.b, 4) + ("-" + c');
      SameGroup(Hex(x.a, 8), b, Hex(y.a, 8), b');
      SameGroup(Hex(x.b, 4), c, Hex(y.b, 4), c');
      SameGroup(Hex(x.c, 4), d, Hex(y.c, 4), d');
      SameGroup(Hex(x.d, 4), e, Hex(y.d, 4), e');
      SameCut(Hex(x.e, 8), Hex(x.f, 4), Hex(y.e, 8), Hex(y.f, 4));
      SameFields(x, y);
    }
  }

  /** Six draws of 32 bits. */
  datatype Draws = Draws(a: nat, b: nat, c: nat, d: nat, e: nat, f: nat)

  predicate In32Bits(x: Draws) {
    x.a < 0x1_0000_0000 && x.b < 0x1_0000_0000 && x.c < 0x1_0000_0000 && x.d < 0x1_0000_0000 && x.e < 0x1_0000_0000 && x.f < 0x1_0000_0000
  }

  /** Two executions are given the same id exactly when their draws agree on the 122 bits the masks leave. */
  lemma GeneratedIdsApart(x: Draws, y: Draws)
    requires In32Bits(x) && In32Bits(y)
    ensures GenerateExecutionId(x.a, x.b, x.c, x.d, x.e, x.f) == GenerateExecutionId(y.a, y.b, y.c, y.d, y.e, y.f)
       <==> x.a == y.a && x.b % 0x10000 == y.b % 0x10000 && x.c % 0x1000 == y.c % 0x1000
            && x.d % 0x4000 == y.d % 0x4000 && x.e == y.e && x.f % 0x10000 == y.f % 0x10000
  {
    MaskedIsDrawn(x.a, x.b, x.c, x.d, x.e, x.f);
    MaskedIsDrawn(y.a, y.b, y.c, y.d, y.e, y.f);
    IdsApart(Masked(x.a, x.b, x.c, x.d, x.e, x.f), Masked(y.a, y.b, y.c, y.d, y.e, y.f));
  }

  lemma SameFields(x: IdFields, y: IdFields)
    requires Drawn(x) && Drawn(y)
    requires Hex(x.a, 8) == Hex(y.a, 8) && Hex(x.b, 4) == Hex(y.b, 4) && Hex(x.c, 4) == Hex(y.c, 4)
    requires Hex(x.d, 4) == Hex(y.d, 4) && Hex(x.e, 8) == Hex(y.e, 8) && Hex(x.f, 4) == Hex(y.f, 4)
    ensures x == y
  {
    HexInjective(x.a, y.a, 8);
    HexInjective(x.b, y.b, 4);
    HexInjective(x.c, y.c, 4);
    HexInjective(x.d, y.d, 4);
    HexInjective(x.e, y.e, 8);
    HexInjective(x.f, y.f, 4);
  }

  /* ---- keys ---- */

  /** The key of a definition and of its singleton lock. */
  function DefinitionKeyText(name: string, version: int): string {
    name + (":" + DecimalInt(version))
  }

  function StepKeyText(id: string, stepName: string, attempt: int): string {
    id + (":" + (stepName + (":" + DecimalInt(attempt))))
  }

  /** A text splits at its last colon in one way. */
  lemma SplitsAtLastColon(x: string, y: string, m: int, n: int)
    requires x + (":" + DecimalInt(m)) == y + (":" + DecimalInt(n))
    ensures x == y && m == n
  {
    var s := x + (":" + DecimalInt(m));
    LastColon(x, DecimalInt(m), s);
    LastColon(y, DecimalInt(n), s);
    SameCut(x, ":" + DecimalInt(m), y, ":" + DecimalInt(n));
    SameCut(":", DecimalInt(m), ":", DecimalInt(n));
    DecimalIntInjective(m, n);
  }

  lemma LastColon(x: string, a: string, s: string)
    requires s == x + (":" + a) && ':' !in a
    ensures |x| < |s| && s[|x|] == ':' && forall i :: |x| < i < |s| ==> s[i] != ':'
  {
    assert forall i :: |x| < i < |s| ==> s[i] == a[i - |x| - 1];
  }

  /** No two definitions share a key, whatever their names. */
  lemma DefinitionKeysApart(k: DefinitionKey, l: DefinitionKey)
    ensures DefinitionKeyText(k.name, k.version) == DefinitionKeyText(l.name, l.version) <==> k == l
  {
    if DefinitionKeyText(k.name, k.version) == DefinitionKeyText(l.name, l.version) {
      SplitsAtLastColon(k.name, l.name, k.version, l.version);
    }
  }

  /** No two step rows share a key, whatever their steps' names, as long as ids are all of one length. */
  lemma StepKeysApart(k: StepKey, l: StepKey)
    requires |k.executionId| == |l.executionId|
    ensures StepKeyText(k.executionId, k.stepName, k.attempt) == StepKeyText(l.executionId, l.stepName, l.attempt) <==> k == l
  {
    var s, t := StepKeyText(k.executionId, k.stepName, k.attempt), StepKeyText(l.executionId, l.stepName, l.attempt);
    if s == t {
      var n := |k.executionId|;
      assert s[..n] == k.executionId && t[..n] == l.executionId;
      assert s[n + 1..] == k.stepName + (":" + DecimalInt(k.attempt)) && t[n + 1..] == l.stepName + (":" + DecimalInt(l.attempt));
      SplitsAtLastColon(k.stepName, l.stepName, k.attempt, l.attempt);
    }
  }

  /** Ids of different lengths would not do. */
  lemma StepKeysCollide()
    ensures StepKeyText("a", "b:c", 0) == StepKeyText("a:b", "c", 0)
  {
    assert "a" + (":" + ("b:c" + (":" + DecimalInt(0)))) == "a:b" + (":" + ("c" + (":" + DecimalInt(0))));
  }

  /* ---- the row mappings' keys ---- */

  function DefinitionRowKey(row: DefinitionRow): string {
    row.workflowName + ":" + DecimalInt(row.workflowVersion)
  }

  function StepExecutionRowKey(row: StepExecutionRow): string {
    row.executionId + ":" + row.stepName + ":" + DecimalInt(row.attempt)
  }

  function ExecutionRowKey(row: ExecutionRow): string {
    row.executionId
  }

  /** A row is filed under the key it is looked up by. */
  lemma RowsFoundAgain(d: WorkflowDefinition, e: Execution, r: StepExecution)
    ensures DefinitionRowKey(DefinitionToRow(d)) == DefinitionKeyText(KeyOfDefinition(d).name, KeyOfDefinition(d).version)
    ensures TimesFrom1970(e) ==> ExecutionRowKey(ExecutionToRow(e)) == e.id
    ensures StepTimesFrom1970(r) ==>
              StepExecutionRowKey(StepExecutionToRow(r)) == StepKeyText(KeyOfStep(r).executionId, KeyOfStep(r).stepName, KeyOfStep(r).attempt)
  {
    var name, version := d.workflowName, DecimalInt(d.workflowVersion);
    assert name + ":" + version == name + (":" + version);
    var id, step, attempt := r.executionId, r.stepName, DecimalInt(r.attempt);
    assert id + ":" + step + ":" + attempt == id + (":" + (step + (":" + attempt)));
  }
}
