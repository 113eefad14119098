/** The exceptions the adapter throws, as values. */
module Errors {
  import Strings

  datatype Error =
    | UnknownType(typeName: string, column: string)   // getRowType: no kind for a type string
    | WhereRequired                                   // scan: empty filter list
    | NotSingleOrAnd                                  // scan: first filter neither EQUALS nor AND
    | NeedExactlyOne(count: nat)                      // scan: not exactly one filter maps to a path
    | EmptyInput                                      // lowerCaseFirst: IllegalArgumentException
    | IndexOutOfBounds(index: int)                    // List.get with a bad index
    | StringIndexOutOfBounds                          // String.substring with bad bounds
    | NullPointer                                     // dereference of a missing value
    | UnsupportedOperation                            // close, reset, unconvertible kinds

  /** The text the source attaches to each exception. */
  function Message(e: Error): string
  {
    match e
    case UnknownType(t, c) => "ERROR: Found unknown type: " + t + " for column: " + c
    case WhereRequired => "Where clause is required."
    case NotSingleOrAnd => "Where clause must be a single constraint or an AND."
    case NeedExactlyOne(n) =>
      "Need exactly one filter that maps to an API path (have " + Strings.NatToString(n) + ")."
    case EmptyInput => "Input must not be empty."
    case IndexOutOfBounds(i) => "IndexOutOfBoundsException"
    case StringIndexOutOfBounds => "StringIndexOutOfBoundsException"
    case NullPointer => "NullPointerException"
    case UnsupportedOperation => "UnsupportedOperationException"
  }
}
