/**
 * Result shaping of `validate_toml`: the TOML parser is abstracted into the
 * outcome it hands back, and the outcome alone decides which position and
 * message fields of the result are present.
 */
module Validation {
  import opened Wrappers
  import opened LineIndex
  import opened SpanWidening

  /** The half-open `[start, end)` range a parse error reports. */
  datatype Span = Span(start: nat, end: nat)

  /** What `toml::from_str` hands back: success, or an error with an optional span and its text. */
  datatype ParseOutcome = Parsed | Failed(span: Option<Span>, message: string)

  /** The record `validate_toml` serialises. */
  datatype ValidationResult = ValidationResult(
    valid: bool,
    line: Option<nat>,
    column: Option<nat>,
    endLine: Option<nat>,
    endColumn: Option<nat>,
    message: Option<string>)

  /** The parser reports spans inside the text it was given. */
  predicate SpanFits(content: string, outcome: ParseOutcome)
  {
    outcome.Failed? && outcome.span.Some? ==>
      outcome.span.value.start <= |content| && outcome.span.value.end <= |content|
  }

  method ValidateToml(content: string, outcome: ParseOutcome) returns (v: ValidationResult)
    requires SpanFits(content, outcome)
    ensures v.valid <==> outcome.Parsed?
    ensures v.message.None? <==> outcome.Parsed?
    ensures v.line.Some? <==> outcome.Failed? && outcome.span.Some?
    ensures outcome.Parsed? ==> v == ValidationResult(true, None, None, None, None, None)
    ensures outcome.Failed? && outcome.span.None? ==>
      v == ValidationResult(false, None, None, None, None, Some(outcome.message))
    ensures outcome.Failed? && outcome.span.Some? ==>
      var s := WidenStart(content, outcome.span.value.start);
      var e := WidenEnd(content, outcome.span.value.end);
      && IsLineTable(content, LineStarts(content))
      && v == ValidationResult(
        false,
        Some(Coords(LineIndex(LineStarts(content)), s, content).line),
        Some(Coords(LineIndex(LineStarts(content)), s, content).column),
        Some(Coords(LineIndex(LineStarts(content)), e, content).line),
        Some(Coords(LineIndex(LineStarts(content)), e, content).column),
        Some(outcome.message))
    ensures outcome.Failed? && outcome.span.Some? ==>
      var p := Position(content, WidenStart(content, outcome.span.value.start));
      var q := Position(content, WidenEnd(content, outcome.span.value.end));
      v.line == Some(p.line) && v.column == Some(p.column)
      && v.endLine == Some(q.line) && v.endColumn == Some(q.column)
  {
    var index := Build(content);
    match outcome
    case Parsed =>
      v := ValidationResult(true, None, None, None, None, None);
    case Failed(span, message) =>
      if span.Some? {
        var s, e := WidenSpan(content, span.value.start, span.value.end);
        var startAt := Coords(index, s, content);
        var endAt := Coords(index, e, content);
        CoordsIsPosition(content, s);
        CoordsIsPosition(content, e);
        v := ValidationResult(
          false, Some(startAt.line), Some(startAt.column), Some(endAt.line), Some(endAt.column), Some(message));
      } else {
        v := ValidationResult(false, None, None, None, None, Some(message));
      }
  }
}
