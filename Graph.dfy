/**
 * The extract-validate-repair loop of src/graph.py. The graph has two nodes:
 * `extract` asks the oracle (the external extraction service) for a candidate,
 * `validate` checks the candidate against the schema, and the conditional edge
 * `should_continue` either loops back to `extract` or ends. Entry is `extract`
 * and `extract` always leads to `validate`.
 *
 * The oracle is a sequence of responses, one per call; the prompt each call
 * would have carried is recorded beside the states, so that what the next
 * request is built from can be stated.
 */
module Graph {
  import opened Wrappers
  import opened Schemas
  import LlmClient

  /** The graph's state carries exactly the fields of ExtractorState. */
  type AgentState = ExtractorState

  /** The retry budget: `should_continue` ends once `attempt_count >= 3`. */
  const MaxAttempts := 3

  const NoOutputMessage := "No output received from LLM"

  /**
   * The schema check `validate_node` applies to a candidate: the violations it
   * reports, none when the candidate conforms. The graph built by
   * `ExtractionGraph` uses `Schemas.FieldErrors`; the run lemmas hold for any.
   */
  type Schema = StructuredOutput -> seq<FieldError>

  /** One call of the oracle: it returns a candidate, or raises an exception with a message. */
  datatype Response = Returned(candidate: StructuredOutput) | Raised(message: string)

  /**
   * `extract_node`. Both paths count the attempt; a returned candidate replaces
   * the output and stamps `current_attempt`, a raised exception replaces the
   * error list with its message and keeps the previous output.
   */
  function ExtractNode(s: AgentState, response: Response): (t: AgentState)
    ensures t.attemptCount == s.attemptCount + 1
    ensures t.rawText == s.rawText && t.isValid == s.isValid && t.warningFlag == s.warningFlag
    ensures response.Returned? ==>
      t.finalOutput == Some(response.candidate) && t.currentAttempt == t.attemptCount &&
      t.validationErrors == s.validationErrors
    ensures response.Raised? ==>
      t.validationErrors == [response.message] &&
      t.finalOutput == s.finalOutput && t.currentAttempt == s.currentAttempt
  {
    match response
    case Returned(candidate) =>
      s.(finalOutput := Some(candidate), attemptCount := s.attemptCount + 1,
         currentAttempt := s.attemptCount + 1)
    case Raised(message) =>
      s.(validationErrors := [message], attemptCount := s.attemptCount + 1)
  }

  /**
   * How `validate_node` renders one violation: Pydantic v2 reports the location
   * as a one-element tuple and prefixes a field validator's message with
   * "Value error, "; the node joins the two with a colon.
   */
  function ErrorText(e: FieldError): (text: string)
    ensures 2 + |e.loc| + |e.msg| <= |text|
    ensures text[..2 + |e.loc|] == "('" + e.loc
    ensures text[|text| - |e.msg|..] == e.msg
  {
    "('" + e.loc + "',): Value error, " + e.msg
  }

  /** One line per violation, in order, each naming its field and carrying its message. */
  function ErrorTexts(errs: seq<FieldError>): (texts: seq<string>)
    ensures |texts| == |errs|
    ensures forall i :: 0 <= i < |errs| ==>
      2 + |errs[i].loc| + |errs[i].msg| <= |texts[i]| &&
      texts[i][..2 + |errs[i].loc|] == "('" + errs[i].loc &&
      texts[i][|texts[i]| - |errs[i].msg|..] == errs[i].msg
  {
    seq(|errs|, i requires 0 <= i < |errs| => ErrorText(errs[i]))
  }

  /**
   * `validate_node`. Without an output the state is invalid with the one
   * "no output" message; otherwise the state is valid exactly when the schema
   * reports no violation, and the error list holds one line per violation, in
   * order. The state is valid exactly when its error list is empty, and
   * nothing but the two fields changes.
   */
  function ValidateNode(schema: Schema, s: AgentState): (t: AgentState)
    ensures t == s.(isValid := t.isValid, validationErrors := t.validationErrors)
    ensures s.finalOutput.None? ==> !t.isValid && t.validationErrors == [NoOutputMessage]
    ensures s.finalOutput.Some? ==>
      (t.isValid <==> schema(s.finalOutput.value) == []) &&
      t.validationErrors == ErrorTexts(schema(s.finalOutput.value))
    ensures t.isValid <==> t.validationErrors == []
    ensures t.isValid ==> t.finalOutput.Some?
  {
    match s.finalOutput
    case None => s.(isValid := false, validationErrors := [NoOutputMessage])
    case Some(output) =>
      var errs := schema(output);
      if errs == [] then s.(isValid := true, validationErrors := [])
      else s.(isValid := false, validationErrors := ErrorTexts(errs))
  }

  /**
   * The message of a failed oracle call never survives `validate_node`: the
   * pass ends as if the call had only counted an attempt.
   */
  lemma OracleFailureMessageDiscarded(schema: Schema, s: AgentState, message: string)
    ensures ValidateNode(schema, ExtractNode(s, Raised(message))) ==
            ValidateNode(schema, s.(attemptCount := s.attemptCount + 1))
  {
    var e := ExtractNode(s, Raised(message));
    assert e.(validationErrors := []) == s.(attemptCount := s.attemptCount + 1, validationErrors := []);
  }

  datatype Route = ToExtract | ToEnd

  /** The route `should_continue` takes and the state it leaves behind. */
  datatype Decision = Decision(route: Route, state: AgentState)

  /**
   * `should_continue`: a valid state ends; an invalid one ends once the
   * budget is spent, raising the warning flag; otherwise the loop goes back to
   * `extract`. Only the warning flag can change.
   */
  function Decide(s: AgentState): (d: Decision)
    ensures d.route == ToEnd <==> s.isValid || s.attemptCount >= MaxAttempts
    ensures d.state == s.(warningFlag := d.state.warningFlag)
    ensures d.state.warningFlag <==> s.warningFlag || (!s.isValid && s.attemptCount >= MaxAttempts)
  {
    if s.isValid then Decision(ToEnd, s)
    else if s.attemptCount >= MaxAttempts then Decision(ToEnd, s.(warningFlag := true))
    else Decision(ToExtract, s)
  }

  /** One pass through the graph: extract, validate, then route. */
  function Round(schema: Schema, s: AgentState, response: Response): Decision {
    Decide(ValidateNode(schema, ExtractNode(s, response)))
  }

  /** A pass keeps the raw text and counts one attempt. */
  lemma RoundKeepsText(schema: Schema, s: AgentState, response: Response)
    ensures Round(schema, s, response).state.rawText == s.rawText
    ensures Round(schema, s, response).state.attemptCount == s.attemptCount + 1
  {
    var e := ExtractNode(s, response);
    var v := ValidateNode(schema, e);
    assert v.rawText == e.rawText && v.attemptCount == e.attemptCount;
  }

  /** A response the schema accepts: a returned candidate with no violation. */
  predicate Accepts(schema: Schema, response: Response) {
    response.Returned? && schema(response.candidate) == []
  }

  /**
   * A state a pass can start from with its budget left: fewer than three
   * attempts made, no warning raised, and no accepted candidate held (so a
   * failed call cannot make the state valid by revalidating the old output).
   */
  predicate Pending(schema: Schema, s: AgentState) {
    0 <= s.attemptCount < MaxAttempts && !s.warningFlag &&
    (s.finalOutput.Some? ==> schema(s.finalOutput.value) != [])
  }

  /**
   * One pass from a pending state: it ends valid exactly when the oracle's
   * response is accepted, and then holds that candidate; it goes back to
   * `extract` exactly when the response is rejected and budget remains, and
   * then leaves a pending state; the warning flag is raised exactly when the
   * pass ends invalid on the last attempt.
   */
  lemma RoundOutcome(schema: Schema, s: AgentState, response: Response)
    requires Pending(schema, s)
    ensures var d := Round(schema, s, response);
      (d.state.isValid <==> Accepts(schema, response)) &&
      (d.state.isValid ==> d.state.finalOutput == Some(response.candidate)) &&
      (d.route == ToExtract <==> !Accepts(schema, response) && s.attemptCount + 1 < MaxAttempts) &&
      (d.route == ToExtract ==> Pending(schema, d.state)) &&
      (d.state.warningFlag <==> !d.state.isValid && d.state.attemptCount == MaxAttempts)
  {
    var e := ExtractNode(s, response);
    var v := ValidateNode(schema, e);
    assert v.isValid <==> Accepts(schema, response);
  }

  /**
   * A run: the prompt of every oracle call, and the state after every pass
   * through the graph; the last state is what `invoke` returns.
   */
  datatype Trace = Trace(prompts: seq<string>, rounds: seq<AgentState>)

  function Final(t: Trace): AgentState
    requires t.rounds != []
  {
    t.rounds[|t.rounds| - 1]
  }

  /** The oracle has an answer for every call the remaining budget allows. */
  predicate CoversBudget(s: AgentState, oracle: seq<Response>) {
    1 <= |oracle| && MaxAttempts - s.attemptCount <= |oracle|
  }

  /**
   * The graph run from `s` at the `extract` node: one pass per oracle call,
   * never more passes than the oracle has answers.
   */
  function Run(schema: Schema, s: AgentState, oracle: seq<Response>): (t: Trace)
    requires CoversBudget(s, oracle)
    ensures 1 <= |t.rounds| == |t.prompts| <= |oracle|
    decreases MaxAttempts - s.attemptCount
  {
    var prompt := LlmClient.Prompt(s.rawText, Some(s.validationErrors));
    var d := Round(schema, s, oracle[0]);
    if d.route == ToEnd then
      Trace([prompt], [d.state])
    else
      var rest := Run(schema, d.state, oracle[1..]);
      Trace([prompt] + rest.prompts, [d.state] + rest.rounds)
  }

  /**
   * Every pass counts one attempt and keeps the raw text; every pass but the
   * last continued because its state was invalid and within budget.
   */
  lemma {:induction false} RunAttempts(schema: Schema, s: AgentState, oracle: seq<Response>)
    requires CoversBudget(s, oracle)
    ensures forall i :: 0 <= i < |Run(schema, s, oracle).rounds| ==>
      Run(schema, s, oracle).rounds[i].rawText == s.rawText &&
      Run(schema, s, oracle).rounds[i].attemptCount == s.attemptCount + i + 1
    ensures forall i :: 0 <= i < |Run(schema, s, oracle).rounds| - 1 ==>
      !Run(schema, s, oracle).rounds[i].isValid &&
      Run(schema, s, oracle).rounds[i].attemptCount < MaxAttempts
    decreases MaxAttempts - s.attemptCount
  {
    var d := Round(schema, s, oracle[0]);
    var t := Run(schema, s, oracle);
    assert t.rounds[0] == d.state;
    RoundKeepsText(schema, s, oracle[0]);
    if d.route == ToExtract {
      var rest := Run(schema, d.state, oracle[1..]);
      RunAttempts(schema, d.state, oracle[1..]);
      assert t.rounds == [d.state] + rest.rounds;
      forall i | 1 <= i < |t.rounds|
        ensures t.rounds[i].rawText == s.rawText && t.rounds[i].attemptCount == s.attemptCount + i + 1
      {
        assert t.rounds[i] == rest.rounds[i - 1];
      }
    }
  }

  /** The last pass stopped because its state was valid or the budget was spent. */
  lemma {:induction false} RunStops(schema: Schema, s: AgentState, oracle: seq<Response>)
    requires CoversBudget(s, oracle)
    ensures Final(Run(schema, s, oracle)).isValid ||
            Final(Run(schema, s, oracle)).attemptCount >= MaxAttempts
    decreases MaxAttempts - s.attemptCount
  {
    var d := Round(schema, s, oracle[0]);
    RunFinal(schema, s, oracle);
    if d.route == ToExtract {
      RunStops(schema, d.state, oracle[1..]);
    }
  }

  /**
   * The feedback loop: every oracle call's prompt is built from the raw text
   * and the error list the previous pass left (for the first call, the error
   * list of the start state).
   */
  lemma {:induction false} RunPrompts(schema: Schema, s: AgentState, oracle: seq<Response>)
    requires CoversBudget(s, oracle)
    ensures var t := Run(schema, s, oracle);
      t.prompts[0] == LlmClient.Prompt(s.rawText, Some(s.validationErrors)) &&
      forall i :: 0 <= i < |t.rounds| - 1 ==>
        t.prompts[i + 1] == LlmClient.Prompt(s.rawText, Some(t.rounds[i].validationErrors))
    decreases MaxAttempts - s.attemptCount
  {
    var d := Round(schema, s, oracle[0]);
    if d.route == ToExtract {
      RoundKeepsText(schema, s, oracle[0]);
      RunPrompts(schema, d.state, oracle[1..]);
    }
  }

  /**
   * Errors of pass `i` reach the next request verbatim: the line for the
   * `j`-th error stands in prompt `i + 1` at the place the prompt builder
   * gives it.
   */
  lemma FeedbackReachesNextPrompt(schema: Schema, s: AgentState, oracle: seq<Response>, i: nat, j: nat)
    requires CoversBudget(s, oracle)
    requires i + 1 < |Run(schema, s, oracle).rounds|
    requires j < |Run(schema, s, oracle).rounds[i].validationErrors|
    ensures var t := Run(schema, s, oracle);
      var errors := t.rounds[i].validationErrors;
      var k := LlmClient.ErrorLineOffset(s.rawText, errors, j);
      var line := LlmClient.ErrorLine(errors[j]);
      k + |line| <= |t.prompts[i + 1]| && t.prompts[i + 1][k .. k + |line|] == line
  {
    var t := Run(schema, s, oracle);
    RunPrompts(schema, s, oracle);
    LlmClient.ErrorReportedVerbatim(s.rawText, t.rounds[i].validationErrors, j);
  }

  /**
   * A run from a pending state ends within budget, after one prompt per
   * attempt, in a consistent state: valid only with an output and no errors,
   * invalid only with errors, and warned exactly when it ends invalid, which
   * happens only on the third attempt.
   */
  lemma {:induction false} RunEnds(schema: Schema, s: AgentState, oracle: seq<Response>)
    requires CoversBudget(s, oracle) && Pending(schema, s)
    ensures var t := Run(schema, s, oracle);
      var f := Final(t);
      s.attemptCount < f.attemptCount <= MaxAttempts &&
      |t.prompts| == f.attemptCount - s.attemptCount &&
      f.rawText == s.rawText &&
      (f.isValid <==> f.validationErrors == []) &&
      (f.isValid ==> f.finalOutput.Some? && schema(f.finalOutput.value) == []) &&
      (f.warningFlag <==> !f.isValid) &&
      (f.warningFlag ==> f.attemptCount == MaxAttempts)
    decreases MaxAttempts - s.attemptCount
  {
    var d := Round(schema, s, oracle[0]);
    RoundOutcome(schema, s, oracle[0]);
    RoundKeepsText(schema, s, oracle[0]);
    RunFinal(schema, s, oracle);
    if d.route == ToExtract {
      RunEnds(schema, d.state, oracle[1..]);
    }
  }

  /**
   * When the oracle never returns an accepted candidate, the run spends the
   * whole budget and ends invalid, warned and with errors.
   */
  lemma {:induction false} RejectedRunExhaustsBudget(schema: Schema, s: AgentState, oracle: seq<Response>)
    requires CoversBudget(s, oracle) && Pending(schema, s)
    requires forall i :: 0 <= i < MaxAttempts - s.attemptCount ==> !Accepts(schema, oracle[i])
    ensures var t := Run(schema, s, oracle);
      var f := Final(t);
      |t.prompts| == MaxAttempts - s.attemptCount && f.attemptCount == MaxAttempts &&
      !f.isValid && f.warningFlag && f.validationErrors != []
    decreases MaxAttempts - s.attemptCount
  {
    var d := Round(schema, s, oracle[0]);
    RoundOutcome(schema, s, oracle[0]);
    RoundKeepsText(schema, s, oracle[0]);
    RunFinal(schema, s, oracle);
    if d.route == ToExtract {
      var tail := oracle[1..];
      forall i | 0 <= i < MaxAttempts - d.state.attemptCount
        ensures !Accepts(schema, tail[i])
      {
        assert tail[i] == oracle[i + 1];
      }
      RejectedRunExhaustsBudget(schema, d.state, tail);
    }
  }

  /**
   * When the first accepted candidate is the oracle's `k`-th answer and the
   * budget allows `k` calls, the run ends after exactly `k` calls, valid,
   * unwarned and holding that candidate.
   */
  lemma {:induction false} RunAcceptsAt(schema: Schema, s: AgentState, oracle: seq<Response>, k: nat)
    requires CoversBudget(s, oracle) && Pending(schema, s)
    requires 1 <= k <= MaxAttempts - s.attemptCount
    requires Accepts(schema, oracle[k - 1])
    requires forall i :: 0 <= i < k - 1 ==> !Accepts(schema, oracle[i])
    ensures var t := Run(schema, s, oracle);
      var f := Final(t);
      |t.prompts| == k && f.attemptCount == s.attemptCount + k &&
      f.isValid && !f.warningFlag && f.validationErrors == [] &&
      f.finalOutput == Some(oracle[k - 1].candidate)
    decreases k
  {
    var d := Round(schema, s, oracle[0]);
    RoundOutcome(schema, s, oracle[0]);
    RoundKeepsText(schema, s, oracle[0]);
    RunFinal(schema, s, oracle);
    if k > 1 {
      assert !Accepts(schema, oracle[0]);
      var tail := oracle[1..];
      assert tail[k - 2] == oracle[k - 1];
      forall i | 0 <= i < k - 2
        ensures !Accepts(schema, tail[i])
      {
        assert tail[i] == oracle[i + 1];
      }
      RunAcceptsAt(schema, d.state, tail, k - 1);
    }
  }

  /** The last state and the number of calls of a run, from its first pass. */
  lemma RunFinal(schema: Schema, s: AgentState, oracle: seq<Response>)
    requires CoversBudget(s, oracle)
    ensures var d := Round(schema, s, oracle[0]);
      (d.route == ToEnd ==>
        Final(Run(schema, s, oracle)) == d.state && |Run(schema, s, oracle).prompts| == 1) &&
      (d.route == ToExtract ==>
        CoversBudget(d.state, oracle[1..]) &&
        Final(Run(schema, s, oracle)) == Final(Run(schema, d.state, oracle[1..])) &&
        |Run(schema, s, oracle).prompts| == 1 + |Run(schema, d.state, oracle[1..]).prompts|)
  {
    RunUnfold(schema, s, oracle);
  }

  /** One unfolding of Run, as the loop of Invoke takes it. */
  lemma RunUnfold(schema: Schema, s: AgentState, oracle: seq<Response>)
    requires CoversBudget(s, oracle)
    ensures var d := Round(schema, s, oracle[0]);
      var prompt := LlmClient.Prompt(s.rawText, Some(s.validationErrors));
      (d.route == ToEnd ==> Run(schema, s, oracle) == Trace([prompt], [d.state])) &&
      (d.route == ToExtract ==>
        CoversBudget(d.state, oracle[1..]) &&
        Run(schema, s, oracle) == Trace([prompt] + Run(schema, d.state, oracle[1..]).prompts,
                                        [d.state] + Run(schema, d.state, oracle[1..]).rounds))
  {
  }

  /**
   * One iteration of Invoke's loop against the run it follows: after the
   * prompt and the pass from `before`, the recorded prompts and states are one
   * longer, and the rest of the run, if any, starts from the new state.
   */
  lemma RunStep(schema: Schema, trace: Trace, prompts: seq<string>, rounds: seq<AgentState>,
                before: AgentState, remaining: seq<Response>, prompt: string, d: Decision)
    requires CoversBudget(before, remaining)
    requires trace.prompts == prompts + Run(schema, before, remaining).prompts
    requires trace.rounds == rounds + Run(schema, before, remaining).rounds
    requires prompt == LlmClient.Prompt(before.rawText, Some(before.validationErrors))
    requires d == Round(schema, before, remaining[0])
    ensures d.route == ToExtract ==>
      CoversBudget(d.state, remaining[1..]) &&
      trace.prompts == (prompts + [prompt]) + Run(schema, d.state, remaining[1..]).prompts &&
      trace.rounds == (rounds + [d.state]) + Run(schema, d.state, remaining[1..]).rounds
    ensures d.route == ToEnd ==>
      trace.prompts == prompts + [prompt] && trace.rounds == rounds + [d.state]
  {
    RunUnfold(schema, before, remaining);
    if d.route == ToExtract {
      AppendAssoc(prompts, [prompt], Run(schema, d.state, remaining[1..]).prompts);
      AppendAssoc(rounds, [d.state], Run(schema, d.state, remaining[1..]).rounds);
    }
  }

  lemma AppendAssoc<T>(a: seq<T>, b: seq<T>, c: seq<T>)
    ensures a + (b + c) == (a + b) + c
  {
  }

  /**
   * The state a run starts from: the ExtractorState defaults with the caller's
   * text, so no attempt made, no errors, no output, invalid and unwarned.
   */
  function Initial(rawText: string): (s: AgentState)
    ensures s.rawText == rawText && s.currentAttempt == 0 && s.attemptCount == 0
    ensures s.validationErrors == [] && s.finalOutput.None? && !s.isValid && !s.warningFlag
  {
    Defaults().(rawText := rawText)
  }

  /** A response that carries a candidate conforming to `StructuredOutput`. */
  predicate Conforming(response: Response) {
    response.Returned? && Conforms(response.candidate)
  }

  /**
   * The graph as built, from the defaults: the run ends within the budget of
   * three calls, one prompt per attempt, in a consistent final state.
   */
  lemma RunFromDefaultsEnds(rawText: string, oracle: seq<Response>)
    requires CoversBudget(Initial(rawText), oracle)
    ensures var t := Run(FieldErrors, Initial(rawText), oracle);
      var f := Final(t);
      1 <= f.attemptCount <= MaxAttempts && |t.prompts| == f.attemptCount &&
      f.rawText == rawText &&
      (f.isValid ==> f.validationErrors == [] && f.finalOutput.Some? && Conforms(f.finalOutput.value)) &&
      (f.warningFlag <==> !f.isValid) &&
      (f.warningFlag ==> f.attemptCount == MaxAttempts && f.validationErrors != [])
  {
    RunEnds(FieldErrors, Initial(rawText), oracle);
  }

  /**
   * The graph as built, from the defaults, when no answer conforms: exactly
   * three calls, ending invalid and warned.
   */
  lemma RunFromDefaultsRejected(rawText: string, oracle: seq<Response>)
    requires CoversBudget(Initial(rawText), oracle)
    requires forall i :: 0 <= i < MaxAttempts ==> !Conforming(oracle[i])
    ensures var t := Run(FieldErrors, Initial(rawText), oracle);
      |t.prompts| == MaxAttempts && Final(t).attemptCount == MaxAttempts &&
      !Final(t).isValid && Final(t).warningFlag
  {
    assert forall i :: 0 <= i < MaxAttempts ==> !Accepts(FieldErrors, oracle[i]);
    RejectedRunExhaustsBudget(FieldErrors, Initial(rawText), oracle);
  }

  /**
   * The graph as built, from the defaults, when the `k`-th answer is the first
   * conforming one (`k <= 3`): `k` calls, ending valid and unwarned with that
   * candidate.
   */
  lemma RunFromDefaultsAcceptsAt(rawText: string, oracle: seq<Response>, k: nat)
    requires CoversBudget(Initial(rawText), oracle)
    requires 1 <= k <= MaxAttempts
    requires Conforming(oracle[k - 1])
    requires forall i :: 0 <= i < k - 1 ==> !Conforming(oracle[i])
    ensures var t := Run(FieldErrors, Initial(rawText), oracle);
      |t.prompts| == k && Final(t).attemptCount == k &&
      Final(t).isValid && !Final(t).warningFlag &&
      Final(t).finalOutput == Some(oracle[k - 1].candidate)
  {
    assert forall i :: 0 <= i < k - 1 ==> !Accepts(FieldErrors, oracle[i]);
    RunAcceptsAt(FieldErrors, Initial(rawText), oracle, k);
  }

  /** The compiled graph: the schema its validate node applies, and the state its nodes update. */
  class ExtractionGraph {
    const schema: Schema
    var state: AgentState

    constructor (rawText: string)
      ensures schema == FieldErrors && state == Initial(rawText)
    {
      schema := FieldErrors;
      state := Initial(rawText);
    }

    /**
     * `should_continue`, which writes the warning flag into the state it is
     * given. LangGraph may not keep a write made inside a conditional-edge
     * function; the model keeps it, as the code reads.
     */
    method ShouldContinue() returns (route: Route)
      modifies this
      ensures Decision(route, state) == Decide(old(state))
    {
      if state.isValid {
        return ToEnd;
      }
      if state.attemptCount >= MaxAttempts {
        state := state.(warningFlag := true);
        return ToEnd;
      }
      return ToExtract;
    }

    /** One pass: the `extract` node, the edge to `validate`, then `should_continue`. */
    method Pass(response: Response) returns (route: Route)
      modifies this
      ensures Decision(route, state) == Round(schema, old(state), response)
    {
      state := ExtractNode(state, response);
      state := ValidateNode(schema, state);
      route := ShouldContinue();
    }

    /**
     * `graph.invoke`: from the entry node `extract`, run extract and validate
     * until `should_continue` ends, answering the i-th oracle call with
     * `oracle[i]`. Returns the prompt of every call.
     */
    method Invoke(oracle: seq<Response>) returns (prompts: seq<string>)
      requires CoversBudget(state, oracle)
      modifies this
      ensures prompts == Run(schema, old(state), oracle).prompts
      ensures state == Final(Run(schema, old(state), oracle))
    {
      ghost var start := state;
      ghost var trace := Run(schema, start, oracle);
      ghost var rounds: seq<AgentState> := [];
      prompts := [];
      var calls := 0;
      var route := ToExtract;
      while route == ToExtract
        invariant 0 <= calls <= |oracle|
        invariant route == ToExtract ==>
          CoversBudget(state, oracle[calls..]) &&
          trace.prompts == prompts + Run(schema, state, oracle[calls..]).prompts &&
          trace.rounds == rounds + Run(schema, state, oracle[calls..]).rounds
        invariant route == ToEnd ==>
          trace.prompts == prompts && trace.rounds == rounds && rounds != [] &&
          state == rounds[|rounds| - 1]
        decreases |oracle| - calls
      {
        ghost var before, remaining := state, oracle[calls..];
        var prompt := LlmClient.BuildPrompt(state.rawText, Some(state.validationErrors));
        route := Pass(oracle[calls]);
        RunStep(schema, trace, prompts, rounds, before, remaining, prompt, Decision(route, state));
        assert remaining[1..] == oracle[calls + 1..];
        prompts := prompts + [prompt];
        rounds := rounds + [state];
        calls := calls + 1;
      }
      assert start == old(state) && trace == Run(schema, old(state), oracle);
      assert trace.rounds == rounds && state == Final(trace);
    }
  }
}
