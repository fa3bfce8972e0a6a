/**
 * Editor positions, ranges and diagnostics as the language server protocol
 * describes them, and the two diagnostic builders of `server/src/util.ts`.
 */
module Diagnostics {

  /** A zero-based line and character offset. */
  datatype Position = Position(line: nat, character: nat)

  /** A half-open span of a document. */
  datatype Range = Range(start: Position, end: Position)

  /** The four severities of the protocol, in the protocol's order (Error is 1). */
  datatype Severity = Error | Warning | Information | Hint

  /** A problem found in the document; the code is always left undefined. */
  datatype Diagnostic = Diagnostic(range: Range, severity: Severity, message: string, source: string)

  /** The name every diagnostic of the checker is attributed to. */
  const DiagnosticSource: string := "Axibase Charts"

  /** A range on one line, from character `from` to character `to`. */
  function LineRange(line: nat, from: nat, to: nat): (r: Range)
    ensures r.start.line == r.end.line == line
    ensures r.start.character == from && r.end.character == to
  {
    Range(Position(line, from), Position(line, to))
  }

  /** `createDiagnostic`: a diagnostic with the standard source. */
  function CreateDiagnostic(range: Range, severity: Severity, message: string): (d: Diagnostic)
    ensures d.source == DiagnosticSource
    ensures d.range == range && d.severity == severity && d.message == message
  {
    Diagnostic(range, severity, message, DiagnosticSource)
  }

  /** Whether a diagnostic carries the standard source. */
  predicate FromChecker(d: Diagnostic) { d.source == DiagnosticSource }

  /** `errorMessage`: the message for an unknown setting or value. */
  function ErrorMessage(found: string): (m: string)
    ensures |m| == |found| + 12
    ensures m[..|found|] == found && m[|found|..] == " is unknown."
  {
    found + " is unknown."
  }

  /** Different unknown tokens give different messages. */
  lemma ErrorMessageInjective(a: string, b: string)
    ensures ErrorMessage(a) == ErrorMessage(b) ==> a == b
  {
    if ErrorMessage(a) == ErrorMessage(b) {
      assert |a| == |b|;
      assert a == ErrorMessage(a)[..|a|];
    }
  }
}
