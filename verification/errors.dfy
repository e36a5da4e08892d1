/** The wallet's error taxonomy (src/errors.ts), extended with the two ways
    the local database can refuse a statement. */
module Errors {

  /** Which table constraint a rejected INSERT violated. */
  datatype Constraint = PrimaryKey | ForeignKey

  datatype Error =
    | InsufficientBalance(required: int, available: int)  // code INSUFFICIENT_BALANCE
    | InvalidToken(message: string)                       // code INVALID_TOKEN
    | MintConnection(mintUrl: string)                     // code MINT_CONNECTION_ERROR
    | Engine(message: string)                             // any other failure raised by the token engine
    | ConstraintViolation(constraint: Constraint)         // SQLite rejected an INSERT
    | MalformedQuery                                      // SQLite refused to prepare a SELECT

  /** The message `InvalidTokenError` carries when none is given. */
  const DefaultInvalidTokenMessage := "Invalid or malformed ecash token"

  /** The failures the token engine can raise: it never reports an
      insufficient balance and never touches the local database. */
  predicate IsEngineError(e: Error) {
    e.InvalidToken? || e.MintConnection? || e.Engine?
  }

  type EngineError = e: Error | IsEngineError(e) witness Engine("")
}
