/** The status-code classifier of the client (`client/src/util.ts`). */
module StatusCodes {
  import opened Wrappers
  import Text

  /** The five HTTP status families; `Code` is the numeric value of the source's enum. */
  datatype StatusFamily = Info | Successful | Redirect | ClientError | ServerError {
    function Code(): (n: nat)
      ensures 1 <= n <= 5
    {
      match this
      case Info => 1
      case Successful => 2
      case Redirect => 3
      case ClientError => 4
      case ServerError => 5
    }
  }

  /** How the message of the thrown error prints the status code. */
  function Rendered(statusCode: Option<int>): string {
    match statusCode
    case None => "undefined"
    case Some(c) => Text.IntToString(c)
  }

  /**
   * `statusFamily`: `floor(code / 100)` selects the family; an absent or zero
   * code, and any code whose hundreds digit is not 1 to 5, throws.
   * Dafny's `/` by a positive divisor rounds down, as `Math.floor` does.
   */
  function Classify(statusCode: Option<int>): (r: Result<StatusFamily>)
    ensures r.Success? <==> statusCode.Some? && 100 <= statusCode.value <= 599
    ensures r.Success? ==> r.value.Code() == statusCode.value / 100
    ensures r.Failure? ==> r.message == "Incorrect status code " + Rendered(statusCode)
  {
    var firstNumber := if statusCode.None? || statusCode.value == 0 then 0 else statusCode.value / 100;
    if firstNumber == 1 then Success(Info)
    else if firstNumber == 2 then Success(Successful)
    else if firstNumber == 3 then Success(Redirect)
    else if firstNumber == 4 then Success(ClientError)
    else if firstNumber == 5 then Success(ServerError)
    else Failure("Incorrect status code " + Rendered(statusCode))
  }

  /** Two codes in the same hundred belong to the same family. */
  lemma SameHundredSameFamily(a: int, b: int)
    requires a / 100 == b / 100
    ensures Classify(Some(a)).Success? <==> Classify(Some(b)).Success?
    ensures Classify(Some(a)).Success? ==> Classify(Some(a)).value == Classify(Some(b)).value
  {}

  /** The family of a successful classification, read back as a number, is the code's hundreds digit. */
  lemma FamilyCodeInjective(f: StatusFamily, g: StatusFamily)
    ensures f.Code() == g.Code() ==> f == g
  {}

  /** Codes below 100, above 599 and all negative codes throw. */
  lemma OutOfRangeThrows(code: int)
    requires code < 100 || code > 599
    ensures Classify(Some(code)).Failure?
    ensures Classify(Some(code)).message == "Incorrect status code " + Text.IntToString(code)
  {}
}
