/** The error taxonomy of src/errors.rs. `usize` fields are `nat`. */
module Errors {

  datatype QueryError =
    | SchemaCountMismatch(expected: nat, actual: nat)
    | ColumnLengthMismatch(columnIndex: nat, expectedLength: nat, actualLength: nat)
    // The Rust variant names its fields `expected` and `actual`; they are
    // renamed here because Dafny destructors of one name must share a type.
    | TypeMismatch(columnName: string, expectedType: string, actualType: string)
    | DataSourceError(message: string)
    | ValidationError(message: string)

  /** Reported only by the SQL tokenizer, which is not part of this model. */
  datatype LexerError = InvalidToken(message: string)
}
