/** What the adapter throws. */
module Errors {

  datatype Error =
      /** `buildWhereClause` met an operator outside its table. */
    | UnsupportedOperator(op: string)
      /** An operation's `try` block threw; `cause` is the message of what it caught. */
    | OperationFailed(operation: string, cause: string)

  /** The `message` of the thrown `Error`. */
  function Message(e: Error): string
  {
    match e
    case UnsupportedOperator(op) => "Unsupported operator: " + op
    case OperationFailed(operation, cause) => operation + " operation failed: " + cause
  }
}
