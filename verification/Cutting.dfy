/** What comes of cutting a definition's integers to 32 bits: where the validator and the documented rules part,
    and which definitions are filed under one key. */
module Cutting {
  import opened Prelude
  import opened JsonValue
  import opened Domain
  import opened Tables
  import opened Operations
  import opened Rows
  import opened Definitions

  const WORD: int := 0x1_0000_0000

  /* ---- one integer ---- */

  /** The validator lets the integer through: the int it is cut to is not below the least one allowed. */
  ghost predicate Passes(n: int, least: int) {
    IntFrom(Int(n), least)
  }

  /** For a version (least 1) and for retries (least 0), the validator looks at the low 32 bits only. So it
      agrees with the rule that the integer itself be at least `least` exactly on the integers from `least`
      whose low word is a non-negative int from `least`, and on the smaller ones whose low word is not. */
  lemma CutAgrees(n: int, least: int)
    requires 0 <= least <= 1
    ensures Passes(n, least) <==> least <= n % WORD <= MAX_INT32
    ensures (Passes(n, least) <==> n >= least)
       <==> if n >= least then least <= n % WORD <= MAX_INT32 else n % WORD < least || n % WORD > MAX_INT32
    ensures InInt32(n) ==> (Passes(n, least) <==> n >= least)
  {
  }

  /* ---- whole definitions ---- */

  ghost predicate StepShaped(step: Json) {
    && Has(step, NAME) && ValidNameIn(step.fields[NAME])
    && (Has(step, EXPECTED_TIME) ==> DurationIn(step.fields[EXPECTED_TIME]))
    && (Has(step, MAX_RETRIES) ==> step.fields[MAX_RETRIES].Int?)
  }

  ghost predicate HeadShaped(value: Json) {
    && value.Object? && value.fields.Keys <= ALLOWED_FIELDS
    && Has(value, WORKFLOW_NAME) && ValidNameIn(value.fields[WORKFLOW_NAME])
    && Has(value, WORKFLOW_VERSION) && value.fields[WORKFLOW_VERSION].Int?
    && Has(value, EXPECTED_TIME) && DurationIn(value.fields[EXPECTED_TIME])
    && (Has(value, SINGLETON) ==> value.fields[SINGLETON].Bool?)
  }

  ghost predicate StepsShaped(steps: seq<Json>) {
    && (forall i :: 0 <= i < |steps| ==> StepShaped(steps[i]))
    && (forall i, j :: 0 <= i < j < |steps| ==> NameOf(steps[i]) != NameOf(steps[j]))
  }

  /** Well-formed but for the size of its integers. */
  ghost predicate Shaped(value: Json) {
    && HeadShaped(value)
    && Has(value, STEPS) && value.fields[STEPS].Array? && StepsShaped(value.fields[STEPS].items)
    && Has(value, START_STEP) && Declares(value.fields[STEPS].items, value.fields[START_STEP])
  }

  /** The documented rule: a version of at least 1, no negative retries. */
  ghost predicate IntegersAllowed(value: Json)
    requires Shaped(value)
  {
    && value.fields[WORKFLOW_VERSION].i >= 1
    && forall i :: 0 <= i < |value.fields[STEPS].items| && Has(value.fields[STEPS].items[i], MAX_RETRIES) ==>
         value.fields[STEPS].items[i].fields[MAX_RETRIES].i >= 0
  }

  /** The same of the low words. */
  ghost predicate LowWordsAllowed(value: Json)
    requires Shaped(value)
  {
    && 1 <= value.fields[WORKFLOW_VERSION].i % WORD <= MAX_INT32
    && forall i :: 0 <= i < |value.fields[STEPS].items| && Has(value.fields[STEPS].items[i], MAX_RETRIES) ==>
         value.fields[STEPS].items[i].fields[MAX_RETRIES].i % WORD <= MAX_INT32
  }

  ghost predicate Documented(value: Json) {
    Shaped(value) && IntegersAllowed(value)
  }

  lemma LowWordsDecide(value: Json)
    ensures WellFormed(value) <==> Shaped(value) && LowWordsAllowed(value)
  {
    if Has(value, STEPS) && value.fields[STEPS].Array? {
      var items := value.fields[STEPS].items;
      forall i | 0 <= i < |items|
        ensures StepWellFormed(items[i])
           <==> StepShaped(items[i]) && (Has(items[i], MAX_RETRIES) ==> items[i].fields[MAX_RETRIES].i % WORD <= MAX_INT32)
      {
        StepLowWord(items[i]);
      }
    }
    if Has(value, WORKFLOW_VERSION) && value.fields[WORKFLOW_VERSION].Int? {
      CutAgrees(value.fields[WORKFLOW_VERSION].i, 1);
    }
  }

  lemma StepLowWord(step: Json)
    ensures StepWellFormed(step)
       <==> StepShaped(step) && (Has(step, MAX_RETRIES) ==> step.fields[MAX_RETRIES].i % WORD <= MAX_INT32)
  {
    if Has(step, MAX_RETRIES) && step.fields[MAX_RETRIES].Int? {
      CutAgrees(step.fields[MAX_RETRIES].i, 0);
    }
  }

  /** The validator and the documented rules agree on a JSON value exactly when it breaks another rule anyway,
      or its integers and their low words are allowed alike. */
  lemma ValidatorAgainstRule(value: Json)
    ensures (WellFormed(value) <==> Documented(value))
       <==> (Shaped(value) ==> (LowWordsAllowed(value) <==> IntegersAllowed(value)))
  {
    LowWordsDecide(value);
  }

  /* ---- values on which they part ---- */

  /** A definition of one step, with the given version and retries. */
  function Sample(version: int, retries: int): Json {
    Object(map[
      WORKFLOW_NAME := String("w"),
      WORKFLOW_VERSION := Int(version),
      START_STEP := String("s"),
      EXPECTED_TIME := String("P1Y"),
      STEPS := Array([Object(map[NAME := String("s"), MAX_RETRIES := Int(retries)])])])
  }

  lemma SampleHead(version: int, retries: int)
    ensures HeadShaped(Sample(version, retries))
    ensures Has(Sample(version, retries), WORKFLOW_VERSION) && Sample(version, retries).fields[WORKFLOW_VERSION] == Int(version)
  {
    var v := Sample(version, retries);
    Duration.YearsGap();
    Duration.MatchersDecide("P1Y");
    assert v.fields.Keys <= ALLOWED_FIELDS;
  }

  lemma SampleSteps(version: int, retries: int)
    ensures var v := Sample(version, retries);
            && Has(v, STEPS) && v.fields[STEPS] == Array([Object(map[NAME := String("s"), MAX_RETRIES := Int(retries)])])
            && Has(v, START_STEP) && v.fields[START_STEP] == String("s")
  {
  }

  lemma SampleShaped(version: int, retries: int)
    ensures Shaped(Sample(version, retries))
    ensures IntegersAllowed(Sample(version, retries)) <==> version >= 1 && retries >= 0
    ensures LowWordsAllowed(Sample(version, retries)) <==> 1 <= version % WORD <= MAX_INT32 && retries % WORD <= MAX_INT32
  {
    SampleHead(version, retries);
    SampleSteps(version, retries);
    var v := Sample(version, retries);
    var items := v.fields[STEPS].items;
    assert StepShaped(items[0]) && NameOf(items[0]) == Some("s");
    assert Has(items[0], MAX_RETRIES) && items[0].fields[MAX_RETRIES].i == retries;
    assert Declares(items, v.fields[START_STEP]);
  }

  /** The validator takes a negative version for version 1 and refuses a positive one; it takes negative
      retries for none and refuses positive ones. */
  lemma IntegerGaps()
    ensures WellFormed(Sample(-0xFFFF_FFFF, 0)) && Parsed(Sample(-0xFFFF_FFFF, 0)).workflowVersion == 1
    ensures !Documented(Sample(-0xFFFF_FFFF, 0))
    ensures !WellFormed(Sample(0x8000_0000, 0)) && Documented(Sample(0x8000_0000, 0))
    ensures WellFormed(Sample(1, -WORD)) && !Documented(Sample(1, -WORD))
    ensures !WellFormed(Sample(1, 0x8000_0000)) && Documented(Sample(1, 0x8000_0000))
  {
    SampleDecided(-0xFFFF_FFFF, 0);
    SampleDecided(0x8000_0000, 0);
    SampleDecided(1, -WORD);
    SampleDecided(1, 0x8000_0000);
  }

  lemma SampleDecided(version: int, retries: int)
    ensures WellFormed(Sample(version, retries)) <==> 1 <= version % WORD <= MAX_INT32 && retries % WORD <= MAX_INT32
    ensures Documented(Sample(version, retries)) <==> version >= 1 && retries >= 0
    ensures WellFormed(Sample(version, retries)) ==> Parsed(Sample(version, retries)).workflowVersion == ToInt32(version)
  {
    SampleShaped(version, retries);
    LowWordsDecide(Sample(version, retries));
    SampleHead(version, retries);
  }

  /* ---- what is stored ---- */

  /** A definition is parsed with the integers it was written with exactly when they are ints. */
  lemma IntegersKept(value: Json, i: nat)
    requires WellFormed(value) && i < |value.fields[STEPS].items| && Has(value.fields[STEPS].items[i], MAX_RETRIES)
    ensures Parsed(value).workflowVersion == value.fields[WORKFLOW_VERSION].i <==> InInt32(value.fields[WORKFLOW_VERSION].i)
    ensures Parsed(value).steps[i].maxRetries == Some(value.fields[STEPS].items[i].fields[MAX_RETRIES].i)
       <==> InInt32(value.fields[STEPS].items[i].fields[MAX_RETRIES].i)
  {
    WellFormedSteps(value.fields[STEPS].items);
  }

  lemma SameCut(m: int, n: int)
    ensures ToInt32(m) == ToInt32(n) <==> (m - n) % WORD == 0
  {
  }

  /** Two definitions are filed under one key exactly when their names are the same and their versions differ
      by a multiple of 2^32; registering the second then replaces the first. */
  lemma SameKey(a: Json, b: Json, s: Store)
    requires WellFormed(a) && WellFormed(b)
    ensures KeyOfDefinition(Parsed(a)) == KeyOfDefinition(Parsed(b))
       <==> a.fields[WORKFLOW_NAME] == b.fields[WORKFLOW_NAME]
            && (a.fields[WORKFLOW_VERSION].i - b.fields[WORKFLOW_VERSION].i) % WORD == 0
    ensures KeyOfDefinition(Parsed(a)) == KeyOfDefinition(Parsed(b)) ==>
              Register(s, Parsed(b)).Done?
              && Lookup(Apply(s, Register(s, Parsed(b)).writes).definitions, KeyOfDefinition(Parsed(a))) == Some(Parsed(b))
  {
    SameCut(a.fields[WORKFLOW_VERSION].i, b.fields[WORKFLOW_VERSION].i);
    ParsedShape(b);
  }
}
