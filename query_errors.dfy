/** Illuminate's `QueryException` as a value: its code and its message. */
module QueryErrors {
  /** Laravel reports a query error's code either as an integer or as the
      SQLSTATE text (PDO gives text such as "23000"); the callers compare it
      strictly, so the two kinds never equal each other. */
  datatype ErrorCode = IntCode(n: int) | TextCode(s: string)

  datatype QueryError = QueryError(code: ErrorCode, message: string)
}
