/** Error values and result wrappers shared by every repository and service.
    The error names follow the `erro` package; MySQL failures that a
    repository does not translate are passed through as `Sql(code)`. */
module Outcome {

  datatype Option<+T> = None | Some(value: T)

  /** The MySQL server errors the repositories look at (by number), plus a
      driver-level failure that stands for a lost connection or an aborted
      transaction. */
  datatype SqlCode =
    | DuplicateKey   // 1062
    | ForeignKey     // 1452: a referenced row does not exist
    | NullColumn     // 1048: a NOT NULL column received NULL
    | NoDefault      // 1364: a column without default was left out of an INSERT
    | Syntax         // 1064: the generated statement does not parse
    | Driver         // any failure reported by the driver rather than by SQL

  datatype Error =
    | AccountNotFound
    | AccountExists
    | AlreadySuscribed
    | NotSuscribed
    | InvalidToken
    | DeckNotFound
    | CardNotFound
    | WrongNotFound
    | BadField
    | ProgressExists
    | ProgressNotFound
    | AnswersNotUpdated(updated: nat)  // "some answers were not updated"
    | Sql(code: SqlCode)
    | NilDereference                   // a Go runtime panic on a nil pointer

  /** A value or the error that replaced it. */
  datatype Result<+T> = Ok(value: T) | Err(error: Error)

  /** The outcome of an operation that returns only an `error`. */
  datatype Status = Pass | Fail(error: Error)
}
