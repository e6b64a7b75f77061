# Structured-output repair loop, modelled in Dafny

This project models the extract–validate–repair loop of `structured-output-repair-loop`. The model has three parts.

- **The graph** (`src/graph.py`).
  - The `extract` node asks an extraction oracle for a `StructuredOutput` candidate.
  - The `validate` node checks the candidate against the schema.
  - The conditional edge `should_continue` retries while the state is invalid and fewer than three attempts have been made.
  - The prompt of every oracle call carries the previous round's error list.
- **The schema** (`src/schemas.py`).
  - It has three field validators: a non-blank `name`, a `date` that `datetime.strptime(v, "%Y-%m-%d")` accepts, and a non-empty list of non-blank `action_items`.
  - `ExtractorState` fixes the defaults the graph starts from.
- **The prompt builder** (`LLMClient._build_prompt`, `src/llm_client.py`).

The model is spread over these modules:

- `Wrappers`: `Option` and `Result`.
- `PyText`: Python's `str.strip` whitespace set, and ASCII digits.
- `Strptime`: the `%Y-%m-%d` parser.
  - It follows the regular expression Python compiles the format into, and tries alternatives in order.
  - `%m` accepts `1`–`9` as well as `01`–`12`.
  - `%d` accepts `1`–`9`, `01`–`31`, and a space followed by a digit from `1` to `9`.
  - Leftover characters are refused ("unconverted data remains").
  - The date must then be a real calendar date: year 1 to 9999, and the day within its month in the Gregorian calendar.
- `Schemas`: the validators and the list of violations Pydantic would report.
- `LlmClient`: the prompt as a function, and `BuildPrompt` as a loop proved equal to it.
- `Graph`: the nodes, one pass, the run as a recursive specification, and the class `ExtractionGraph`.
  - The class holds the state, has `ShouldContinue` write the warning flag into that state, and runs the loop in `Invoke`.

The oracle is an input: a sequence of responses, one per call. Each response is either `Returned(candidate)` or `Raised(message)`. The validate node's schema check is a parameter of type `Schema`. The graph the class builds sets it to `Schemas.FieldErrors`, and the `RunFromDefaults…` lemmas state the results for that schema.

Two points where the repository's files do not agree with each other, and where the model follows `src/graph.py` and `src/schemas.py`:

- **The invoice fields have no schema.** `src/cli.py:22-35`, `run_demo.py:41-54` and `test_graph.py:13-49` render and describe invoice fields: vendor name, e-mail and tax id, line totals, tax, discount and grand total. `src/schemas.py` defines only `name`, `date` and `action_items`, and nothing in the code checks the invoice arithmetic.
- **A failed oracle call's message never reaches the next prompt.** `extract_node` records the exception's text as the error list (`src/graph.py:39`), and the comment above it says it is tracked as an error. But `validate_node` always overwrites the error list right after (`src/graph.py:47-59`): it writes either "No output received from LLM" or the errors of the candidate kept from an earlier attempt. `OracleFailureMessageDiscarded` states this.

## Model

| member | source | states |
|---|---|---|
| PyText.Strip | src/schemas.py:16 | `str.strip()`: the result is no longer than the input and neither starts nor ends with Python whitespace |
| PyText.StripEmptyIff | src/schemas.py:16 | `v.strip()` is empty exactly when every character of `v` is Python whitespace |
| PyText.StripStart | src/schemas.py:16 | stripping the front removes exactly a whitespace prefix and stops at a non-whitespace character |
| PyText.StripEnd | src/schemas.py:16 | stripping the back removes exactly a whitespace suffix and stops at a non-whitespace character |
| Schemas.ValidateName | src/schemas.py:13-18 | accepts exactly the names that have a non-whitespace character, returns the name unchanged, and otherwise fails with the name message |
| Strptime.DaysInMonth | src/schemas.py:24 | every month has 28 to 31 days, and February has 29 exactly in Gregorian leap years |
| Strptime.MatchDay | src/schemas.py:24 | a `%d` match is a day 1–31 read from one or two characters that are an accepted spelling of it |
| Strptime.MatchMonthDashDay | src/schemas.py:24 | a `%m-%d` match is a month 1–12, a dash and a day 1–31, each in an accepted spelling |
| Strptime.ParseDate | src/schemas.py:24 | a parse is always a real calendar date; the input is exactly four year digits, a dash, the month spelling, a dash and the day spelling, with nothing after them |
| Strptime.DaySpellingMatches | src/schemas.py:24 | every accepted spelling of a day is matched in full by `%d` |
| Strptime.MonthDashDaySpellingMatches | src/schemas.py:24 | every accepted month spelling, dash and day spelling is matched in full by `%m-%d` |
| Strptime.SpelledDateParses | src/schemas.py:24 | conversely, every calendar date in any accepted spelling parses back to that date and those spellings |
| Strptime.IsoDateRoundTrip | src/schemas.py:24 | the `YYYY-MM-DD` text of every calendar date is accepted and parses back to that date |
| Strptime.LeapDayParses | src/schemas.py:24 | February 29 of a year is accepted exactly when the year is a leap year |
| Schemas.ValidateDate | src/schemas.py:20-27 | accepts exactly the strings `strptime` parses, returns them unchanged, and otherwise fails with the date message |
| Schemas.HasBlankItem | src/schemas.py:34-36 | true exactly when some item strips to the empty string |
| Schemas.ValidateActionItems | src/schemas.py:29-37 | an empty list fails with the empty-list message; a list with a blank item fails with the blank-item message; any other list is returned unchanged |
| Schemas.FieldErrors | src/schemas.py:5-37 | the violations of a record are empty exactly when its name, date and action items all conform |
| Schemas.FieldErrorsInOrder | src/schemas.py:9-37 | one violation per failing field, in declaration order, with the validator's exact message |
| LlmClient.Prompt | src/llm_client.py:26-36 | the prompt always starts with the instruction, the raw text and a newline, and is longer than that exactly when there are errors to report (`None` and `[]` are falsy) |
| LlmClient.BuildPrompt | src/llm_client.py:26-36 | the prompt the loop builds is the instruction, the raw text and, only when errors are given, the heading, one line per error and the correction request |
| LlmClient.ErrorLinesConcat | src/llm_client.py:32-33 | the error lines of two lists in turn are the error lines of the joined list |
| LlmClient.ErrorReportedVerbatim | src/llm_client.py:32-33 | each error appears as its own line at its offset, once per list entry, and the next entry's line starts right after it |
| LlmClient.BasePromptIsPrefix | src/llm_client.py:28 | the prompt without feedback is always a prefix of the prompt, and the raw text appears verbatim right after the instruction |
| LlmClient.NoErrorsNoFeedback | src/llm_client.py:28-30 | `None` and the empty list give the same prompt: the instruction and the raw text alone |
| Graph.ExtractNode | src/graph.py:18-41 | both paths count one attempt; a returned candidate replaces the output and sets `current_attempt` to the new count; a raised error replaces the error list with its message and keeps the old output and `current_attempt` |
| Graph.ErrorText | src/graph.py:58 | the rendering of one violation starts with the location tuple `('field'` and ends with the validator's message |
| Graph.ErrorTexts | src/graph.py:58 | one rendered line per violation, in Pydantic's order, each starting with its field and ending with its message |
| Graph.ValidateNode | src/graph.py:43-59 | with no output: invalid, with the single message "No output received from LLM"; otherwise valid exactly when the schema reports no violation, with one error line per violation in order; valid exactly when the error list is empty; only those two fields change |
| Graph.OracleFailureMessageDiscarded | src/graph.py:35-49 | after a failed oracle call, the validated state is as if the call had only counted an attempt, so the raised message is overwritten |
| Graph.Decide | src/graph.py:61-72 | ends exactly when the state is valid or at least three attempts were made; raises the warning flag exactly when it ends invalid; changes nothing else |
| Graph.ExtractionGraph.ShouldContinue | src/graph.py:61-72 | the routing method returns the route `Decide` gives and leaves the state `Decide` gives, including the warning-flag write |
| Graph.Round | src/graph.py:82-93 | the wiring of one pass: entry at `extract`, the edge to `validate`, then the conditional edge `should_continue`; what a pass guarantees is stated by `RoundKeepsText` and `RoundOutcome` |
| Graph.RoundKeepsText | src/graph.py:29-41 | one pass keeps the raw text and adds exactly one attempt |
| Graph.RoundOutcome | src/graph.py:29-72 | from a pending state, a pass ends valid exactly when the response is accepted, and then holds that candidate; it loops back exactly when the response is rejected and budget remains, and then leaves a pending state; it warns exactly when it ends invalid on attempt three |
| Graph.Run | src/graph.py:82-93 | a run makes at least one and at most as many calls as the oracle has answers, with one prompt per pass |
| Graph.RunAttempts | src/graph.py:29-72 | pass `i` leaves attempt count `start + i + 1` and the raw text unchanged; every pass but the last was invalid and within budget |
| Graph.RunStops | src/graph.py:61-72 | the run's last state is valid or has spent the budget |
| Graph.RunPrompts | src/graph.py:24-28 | each call's prompt is built from the raw text and the error list the previous pass left |
| Graph.FeedbackReachesNextPrompt | src/graph.py:24-28 | every error of pass `i` appears verbatim, in order, in the prompt of call `i + 1` |
| Graph.RunEnds | src/graph.py:43-93 | from a pending state: the run ends within the budget, with one prompt per attempt made; valid exactly when the error list is empty, and then with an accepted output; warned exactly when invalid, and only at attempt three |
| Graph.RejectedRunExhaustsBudget | src/graph.py:61-93 | when none of the responses the remaining budget can use is accepted (later ones are never asked for), exactly the remaining budget of calls is made, and the run ends invalid, warned and with errors |
| Graph.RunAcceptsAt | src/graph.py:61-93 | when response `k` is the first accepted one and within budget, exactly `k` calls are made, and the run ends valid and unwarned, holding that candidate |
| Graph.Initial | src/schemas.py:43-49 | the start state is the `ExtractorState` defaults with the caller's raw text: no attempt made, no errors, no output, invalid and unwarned |
| Graph.RunFromDefaultsEnds | src/graph.py:74-96 | the built graph from the defaults: 1 to 3 calls, one prompt per attempt; valid only with a conforming output and no errors; warned exactly when invalid, and then at attempt three with errors |
| Graph.RunFromDefaultsRejected | src/graph.py:74-96 | the built graph from the defaults, when none of the first three answers conforms: exactly three calls, ending invalid and warned |
| Graph.RunFromDefaultsAcceptsAt | src/graph.py:74-96 | the built graph from the defaults, when answer `k <= 3` is the first conforming one: `k` calls, ending valid and unwarned with that candidate |
| Graph.ExtractionGraph.constructor | src/graph.py:74-96 | the compiled graph validates with the `StructuredOutput` validators and starts from the defaults |
| Graph.ExtractionGraph.Pass | src/graph.py:78-93 | one pass updates the state and routes as `Round` says |
| Graph.ExtractionGraph.Invoke | src/graph.py:82-96 | the loop returns the prompts of the run `Run` specifies and leaves that run's last state |

## Left out

- Oracle and network layer: `LLMClient.__init__`, environment loading, the OpenAI/instructor call, its internal retries and the module-level helper. The prompt is modelled; the answers are an input sequence, which cannot depend on the prompt.
- LangGraph runtime: `StateGraph`, `compile` and `invoke` are modelled as the explicit loop of `Invoke`. The `print` calls are not modelled.
- `src/input_handler.py`, `src/cli.py`, `run_demo.py`, `test_graph.py` and `test_extraction.py` are not part of this model. They cover file reading, argument handling, output rendering and live-service driver scripts.
- Graph.ValidateNode: Pydantic v2 does not, by default, re-run field validators when `model_validate` is given an existing instance. The model applies the `StructuredOutput` validators anyway, as an abstraction.
- Graph.ExtractionGraph.ShouldContinue: LangGraph may not persist a state write made inside a conditional-edge function. The model keeps the warning-flag write, as the code reads.
- Strptime.ParseDate: only ASCII digits. Python's `\d` also accepts other Unicode decimal digits, which this model refuses.
- Schemas.FieldErrors: an omitted `action_items` takes its default, and Pydantic does not validate defaults. Candidates here always carry the field, so that path is not modelled.
- Pydantic's error text is modelled as the location tuple, a colon, and "Value error, " before the validator's message. Other kinds of error (wrong types, extra fields) cannot arise for the record type here.
- Schemas.Defaults: the defaults are plain data. They are stated through `Graph.Initial` and the `RunFromDefaults…` lemmas.
