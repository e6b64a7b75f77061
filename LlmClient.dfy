/**
 * The feedback prompt of src/llm_client.py (`LLMClient._build_prompt`): the
 * extraction instruction with the raw text, followed, when the previous round
 * left errors, by a section listing each of them and a request to correct them.
 */
module LlmClient {
  import opened Wrappers

  const Instruction := "Extract structured information from the following text:\n\n"
  const ErrorsHeading := "\n### Previous Validation Errors found in your last output:\n"
  const CorrectionRequest := "\nPlease correct these errors in your new response."

  /** The prompt without feedback: the instruction, the raw text and a newline. */
  function BasePrompt(rawText: string): string {
    Instruction + rawText + "\n"
  }

  /** The line that reports one error. */
  function ErrorLine(error: string): string {
    "- " + error + "\n"
  }

  /** The lines reporting `errors`, one per entry, in list order. */
  function ErrorLines(errors: seq<string>): string {
    if errors == [] then "" else ErrorLines(errors[..|errors| - 1]) + ErrorLine(errors[|errors| - 1])
  }

  /** Python truthiness of `previous_errors`: neither None nor the empty list. */
  predicate HasErrors(previousErrors: Option<seq<string>>) {
    previousErrors.Some? && previousErrors.value != []
  }

  /**
   * The prompt `_build_prompt` produces: it always starts with the prompt
   * without feedback, and adds to it exactly when there are errors to report,
   * ending then with the correction request.
   */
  function Prompt(rawText: string, previousErrors: Option<seq<string>>): (p: string)
    ensures BasePrompt(rawText) <= p
    ensures |p| > |BasePrompt(rawText)| <==> HasErrors(previousErrors)
  {
    if HasErrors(previousErrors) then
      BasePrompt(rawText) + ErrorsHeading + ErrorLines(previousErrors.value) + CorrectionRequest
    else
      BasePrompt(rawText)
  }

  /** `_build_prompt`: extends the prompt one error line at a time. */
  method BuildPrompt(rawText: string, previousErrors: Option<seq<string>>) returns (prompt: string)
    ensures prompt == Prompt(rawText, previousErrors)
  {
    prompt := Instruction + rawText + "\n";
    if HasErrors(previousErrors) {
      var errors := previousErrors.value;
      prompt := prompt + ErrorsHeading;
      for i := 0 to |errors|
        invariant prompt == BasePrompt(rawText) + ErrorsHeading + ErrorLines(errors[..i])
      {
        assert errors[..i + 1][..i] == errors[..i];
        prompt := prompt + ErrorLine(errors[i]);
      }
      assert errors[..|errors|] == errors;
      prompt := prompt + CorrectionRequest;
    }
  }

  /** The error lines of two lists one after the other are those of their concatenation. */
  lemma {:induction false} ErrorLinesConcat(a: seq<string>, b: seq<string>)
    ensures ErrorLines(a + b) == ErrorLines(a) + ErrorLines(b)
    decreases |b|
  {
    if b == [] {
      assert a + b == a;
    } else {
      var b' := b[..|b| - 1];
      assert (a + b)[..|a + b| - 1] == a + b';
      ErrorLinesConcat(a, b');
    }
  }

  /** Where the line for `errors[j]` starts in the prompt built from `errors`. */
  function ErrorLineOffset(rawText: string, errors: seq<string>, j: nat): nat
    requires j <= |errors|
  {
    |BasePrompt(rawText) + ErrorsHeading| + |ErrorLines(errors[..j])|
  }

  /**
   * Every previous error is reported verbatim, once per list entry and in list
   * order: the line for `errors[j]` stands at its offset, and the next line
   * starts right after it.
   */
  lemma {:induction false} ErrorReportedVerbatim(rawText: string, errors: seq<string>, j: nat)
    requires j < |errors|
    ensures var p := Prompt(rawText, Some(errors));
      var k := ErrorLineOffset(rawText, errors, j);
      k + |ErrorLine(errors[j])| <= |p| &&
      p[k .. k + |ErrorLine(errors[j])|] == ErrorLine(errors[j]) &&
      ErrorLineOffset(rawText, errors, j + 1) == k + |ErrorLine(errors[j])|
  {
    ErrorLinesSplit(errors, j);
    var base, pre, line, post := BasePrompt(rawText), ErrorLines(errors[..j]), ErrorLine(errors[j]), ErrorLines(errors[j + 1..]);
    assert Prompt(rawText, Some(errors)) == base + ErrorsHeading + (pre + line + post) + CorrectionRequest;
    Regroup(base, ErrorsHeading, pre, line, post, CorrectionRequest);
    InfixOfConcat(base + ErrorsHeading + pre, line, post + CorrectionRequest);
  }

  lemma Regroup<T>(a: seq<T>, b: seq<T>, c: seq<T>, d: seq<T>, e: seq<T>, f: seq<T>)
    ensures a + b + (c + d + e) + f == (a + b + c) + d + (e + f)
  {
  }

  /** The error lines split around the entry at `j`. */
  lemma {:induction false} ErrorLinesSplit(errors: seq<string>, j: nat)
    requires j < |errors|
    ensures ErrorLines(errors[..j + 1]) == ErrorLines(errors[..j]) + ErrorLine(errors[j])
    ensures ErrorLines(errors) == ErrorLines(errors[..j]) + ErrorLine(errors[j]) + ErrorLines(errors[j + 1..])
  {
    var pre, e, post := errors[..j], errors[j], errors[j + 1..];
    var upTo := errors[..j + 1];
    assert upTo == pre + [e];
    ErrorLinesSnoc(pre, e);
    assert ErrorLines(upTo) == ErrorLines(pre) + ErrorLine(e);
    assert errors == upTo + post;
    ErrorLinesConcat(upTo, post);
  }

  lemma {:induction false} ErrorLinesSnoc(errors: seq<string>, e: string)
    ensures ErrorLines(errors + [e]) == ErrorLines(errors) + ErrorLine(e)
  {
    assert (errors + [e])[..|errors|] == errors;
  }

  lemma InfixOfConcat(a: string, b: string, c: string)
    ensures (a + b + c)[|a| .. |a| + |b|] == b
  {
  }

  /** The raw text is reported verbatim and the prompt without feedback is always a prefix. */
  lemma BasePromptIsPrefix(rawText: string, previousErrors: Option<seq<string>>)
    ensures BasePrompt(rawText) <= Prompt(rawText, previousErrors)
    ensures Prompt(rawText, previousErrors)[|Instruction| .. |Instruction| + |rawText|] == rawText
  {
  }

  /** None and the empty list give the same prompt: the instruction and the text alone. */
  lemma NoErrorsNoFeedback(rawText: string)
    ensures Prompt(rawText, None) == Prompt(rawText, Some([])) == Instruction + rawText + "\n"
  {
  }
}
