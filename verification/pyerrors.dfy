/** The exceptions the two tools can catch, and the text `str(e)` gives them. */
module PyErrors {
  import opened PyInt

  datatype Exception =
    /** `dict()` met an element that did not have exactly two parts. */
    | DictUpdateLength(index: nat, length: nat)
    /** `int()` was given text that is not a base-10 integer. */
    | InvalidIntLiteral(text: string)
    /** The request, its JSON decoding, or a key lookup in the response failed. */
    | LookupFailed(reason: string)

  /** `str(e)`. */
  function Describe(e: Exception): string {
    match e
    case DictUpdateLength(i, n) =>
      "dictionary update sequence element #" + IntToString(i) + " has length "
      + IntToString(n) + "; 2 is required"
    case InvalidIntLiteral(text) => "invalid literal for int() with base 10: '" + text + "'"
    case LookupFailed(reason) => reason
  }
}
