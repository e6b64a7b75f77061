/**
 * The data model of src/schemas.py: the extracted record `StructuredOutput`
 * with its three field validators, and `ExtractorState` with its defaults.
 */
module Schemas {
  import opened Wrappers
  import opened PyText
  import Strptime

  /**
   * The extracted record. Its configuration forbids extra fields, so it is a
   * closed record of exactly these three.
   */
  datatype StructuredOutput = StructuredOutput(name: string, date: string, actionItems: seq<string>)

  const NameMessage := "Name cannot be empty or just whitespace"
  const DateMessage := "Date must be in YYYY-MM-DD format (e.g., 2024-01-01)"
  const EmptyActionItemsMessage := "Action items list cannot be empty"
  const BlankActionItemMessage := "Action items cannot contain empty strings"

  /** `name_must_not_be_empty`: accepts a name with a visible character and returns it unchanged. */
  function ValidateName(v: string): (r: Result<string>)
    ensures r.Ok? <==> !IsBlank(v)
    ensures r.Ok? ==> r.value == v
    ensures r.Err? ==> r.message == NameMessage
  {
    StripEmptyIff(v);
    if Strip(v) == [] then Err(NameMessage) else Ok(v)
  }

  /**
   * `validate_date_format`: accepts what `datetime.strptime(v, "%Y-%m-%d")`
   * parses, returning it unchanged; every rejection carries the one message.
   */
  function ValidateDate(v: string): (r: Result<string>)
    ensures r.Ok? <==> Strptime.ParseDate(v).Some?
    ensures r.Ok? ==> r.value == v
    ensures r.Err? ==> r.message == DateMessage
  {
    if Strptime.ParseDate(v).None? then Err(DateMessage) else Ok(v)
  }

  /** The test of the `for` loop of `validate_action_items`: some item strips to "". */
  function HasBlankItem(items: seq<string>): (b: bool)
    ensures b <==> exists i :: 0 <= i < |items| && IsBlank(items[i])
  {
    if items == [] then false
    else
      StripEmptyIff(items[0]);
      BlankItemSplit(items);
      Strip(items[0]) == [] || HasBlankItem(items[1..])
  }

  /** A list holds a blank item exactly when its head is blank or its tail holds one. */
  lemma BlankItemSplit(items: seq<string>)
    requires items != []
    ensures (exists i :: 0 <= i < |items| && IsBlank(items[i])) <==>
      IsBlank(items[0]) || exists i :: 0 <= i < |items[1..]| && IsBlank(items[1..][i])
  {
    var tail := items[1..];
    if exists i :: 0 <= i < |items| && IsBlank(items[i]) {
      var j :| 0 <= j < |items| && IsBlank(items[j]);
      if j > 0 {
        assert tail[j - 1] == items[j];
      }
    }
    if exists i :: 0 <= i < |tail| && IsBlank(tail[i]) {
      var j :| 0 <= j < |tail| && IsBlank(tail[j]);
      assert items[j + 1] == tail[j];
    }
  }

  /**
   * `validate_action_items`: refuses the empty list, then any list holding a
   * blank item; otherwise returns the list unchanged.
   */
  function ValidateActionItems(v: seq<string>): (r: Result<seq<string>>)
    ensures v == [] ==> r == Err(EmptyActionItemsMessage)
    ensures v != [] && (exists i :: 0 <= i < |v| && IsBlank(v[i])) ==> r == Err(BlankActionItemMessage)
    ensures v != [] && (forall i :: 0 <= i < |v| ==> !IsBlank(v[i])) ==> r == Ok(v)
  {
    if v == [] then Err(EmptyActionItemsMessage)
    else if HasBlankItem(v) then Err(BlankActionItemMessage)
    else Ok(v)
  }

  /** What a conforming record is, field by field, independently of the validators. */
  predicate Conforms(o: StructuredOutput) {
    !IsBlank(o.name) &&
    Strptime.ParseDate(o.date).Some? &&
    o.actionItems != [] && (forall i :: 0 <= i < |o.actionItems| ==> !IsBlank(o.actionItems[i]))
  }

  /** One violation as Pydantic reports it: the field it is located at and its message. */
  datatype FieldError = FieldError(loc: string, msg: string)

  /**
   * The violations Pydantic collects when it validates a record: every field
   * is checked, in declaration order, and each failing validator contributes
   * one error. The list is empty exactly when the record conforms.
   */
  function FieldErrors(o: StructuredOutput): (errs: seq<FieldError>)
    ensures errs == [] <==> Conforms(o)
  {
    var name := ValidateName(o.name);
    var date := ValidateDate(o.date);
    var items := ValidateActionItems(o.actionItems);
    assert Conforms(o) <==> name.Ok? && date.Ok? && items.Ok?;
    (if name.Err? then [FieldError("name", name.message)] else []) +
    (if date.Err? then [FieldError("date", date.message)] else []) +
    (if items.Err? then [FieldError("action_items", items.message)] else [])
  }

  /**
   * Which violations are reported, in field order: a blank name, a date that
   * does not parse, then an empty item list or else one holding a blank item.
   */
  lemma FieldErrorsInOrder(o: StructuredOutput)
    ensures FieldErrors(o) ==
      (if IsBlank(o.name) then [FieldError("name", NameMessage)] else []) +
      (if Strptime.ParseDate(o.date).Some? then [] else [FieldError("date", DateMessage)]) +
      (if o.actionItems == [] then [FieldError("action_items", EmptyActionItemsMessage)]
       else if exists i :: 0 <= i < |o.actionItems| && IsBlank(o.actionItems[i])
       then [FieldError("action_items", BlankActionItemMessage)]
       else [])
  {
  }

  /** The state of one extraction run (also the shape of the graph's state). */
  datatype ExtractorState = ExtractorState(
    rawText: string,
    currentAttempt: int,
    validationErrors: seq<string>,
    attemptCount: int,
    finalOutput: Option<StructuredOutput>,
    isValid: bool,
    warningFlag: bool)

  /** The field defaults of `ExtractorState`. */
  function Defaults(): ExtractorState {
    ExtractorState("", 0, [], 0, None, false, false)
  }
}
