/** The stock workflow logic: the step's output names the next step. */
module Routing {
  import opened Prelude
  import opened JsonValue
  import opened Domain

  const NEXT_STEP := "nextStep"

  /** The output names a step to go on to. */
  predicate NamesStep(output: Json) {
    Has(output, NEXT_STEP) && output.fields[NEXT_STEP].String? && output.fields[NEXT_STEP].s != ""
  }

  function DecideNextStep(context: StepCompletionContext): NextStepDecision {
    var output := context.stepOutput;
    if NamesStep(output) then
      NextStepDecision(false, Some(output.fields[NEXT_STEP].s), EMPTY_OBJECT, Object(output.fields - {NEXT_STEP}))
    else
      NextStepDecision(true, None, EMPTY_OBJECT, EMPTY_OBJECT)
  }

  /** `input` is the output with its routing field taken out and nothing else changed. */
  ghost predicate OutputWithoutRoute(input: Json, output: Json) {
    && input.Object? && output.Object?
    && NEXT_STEP !in input.fields
    && forall name :: name != NEXT_STEP ==> Lookup(input.fields, name) == Lookup(output.fields, name)
  }

  lemma Routes(context: StepCompletionContext)
    ensures var d := DecideNextStep(context);
            && (d.workflowComplete <==> !NamesStep(context.stepOutput)) && d.updatedState == Object(map[])
            && (NamesStep(context.stepOutput) ==>
                  d.nextStepName == Some(context.stepOutput.fields[NEXT_STEP].s)
                  && OutputWithoutRoute(d.nextStepInput, context.stepOutput))
  {
  }

  /** A step's way to ask for another: the input it is to have, and its name. */
  function Request(input: map<string, Json>, next: string): Json {
    Object(input[NEXT_STEP := String(next)])
  }

  /** Outputs and requests correspond one to one: what a step asks for is what the logic decides, and an
      output it goes on from is the request for its decision, so nothing of the output is lost. */
  lemma RequestsAreGranted(context: StepCompletionContext, input: map<string, Json>, next: string)
    requires NEXT_STEP !in input && next != ""
    ensures var d := DecideNextStep(context);
            context.stepOutput == Request(input, next)
            <==> !d.workflowComplete && d.nextStepName == Some(next) && d.nextStepInput == Object(input)
  {
    var output, d := context.stepOutput, DecideNextStep(context);
    if output == Request(input, next) {
      assert input[NEXT_STEP := String(next)] - {NEXT_STEP} == input;
    }
    if !d.workflowComplete && d.nextStepName == Some(next) && d.nextStepInput == Object(input) {
      assert output.fields == (output.fields - {NEXT_STEP})[NEXT_STEP := output.fields[NEXT_STEP]];
    }
  }

  /** The logic goes on exactly from the requests for a step with a name; an output that is not one, an empty
      name and a name that is not text among them, ends the workflow. */
  lemma GoesOnExactly(context: StepCompletionContext)
    ensures !DecideNextStep(context).workflowComplete
       <==> exists input: map<string, Json>, next: string ::
              "nextStep" !in input && next != "" && context.stepOutput == Object(input["nextStep" := String(next)])
  {
    var output, d := context.stepOutput, DecideNextStep(context);
    if !d.workflowComplete {
      var input, next := output.fields - {NEXT_STEP}, d.nextStepName.value;
      RequestsAreGranted(context, input, next);
      assert output == Object(input["nextStep" := String(next)]);
    }
    forall input: map<string, Json>, next: string | NEXT_STEP !in input && next != "" && output == Request(input, next)
      ensures !d.workflowComplete
    {
      RequestsAreGranted(context, input, next);
    }
  }
}
