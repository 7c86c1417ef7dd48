/**
 * `ErrorHandlerService` of the project-management API: it turns a database
 * error or a description into the exception it throws. Both handlers always
 * throw, so each is modelled as the function from its arguments to the
 * exception thrown.
 */
module ErrorHandler {
  import opened Wrappers
  import opened HttpErrors

  /** The SQL Server error number of a foreign-key constraint violation. */
  const ForeignKeyViolation: int := 547

  /** A database error as far as the handler looks at it: its `number`, when it has a numeric one. */
  datatype DbError = DbError(number: Option<int>)

  /** JavaScript truthiness of an optional string: present and not empty. */
  predicate Truthy(s: Option<string>) {
    s.Some? && s.value != ""
  }

  /**
   * `handleDatabaseErrors`: a foreign-key violation is a bad request with the
   * foreign-key message, whatever the description; any other error is an
   * internal server error carrying the description, or, without one, the
   * whole `serverError` entry.
   */
  function HandleDatabaseErrors(error: DbError, errorDescription: Option<string>): (e: HttpException)
    ensures e.Status() == 400 <==> error.number == Some(ForeignKeyViolation)
    ensures e.Status() == 400 || e.Status() == 500
    ensures error.number == Some(ForeignKeyViolation) ==> e == BadRequest(Text(ValidForeignKeys.description))
    ensures error.number != Some(ForeignKeyViolation) && Truthy(errorDescription) ==>
      e == InternalServerError(Text(errorDescription.value))
    ensures error.number != Some(ForeignKeyViolation) && !Truthy(errorDescription) ==>
      e == InternalServerError(Message(ServerError))
  {
    if error.number == Some(ForeignKeyViolation) then BadRequest(Text(ValidForeignKeys.description))
    else if Truthy(errorDescription) then InternalServerError(Text(errorDescription.value))
    else InternalServerError(Message(ServerError))
  }

  /** `handleGenericErrors`: always a bad request with the given text. */
  function HandleGenericErrors(errorDescription: string): (e: HttpException)
    ensures e.Status() == 400 && e.body == Text(errorDescription)
  {
    BadRequest(Text(errorDescription))
  }

  /**
   * The description reaches the caller unchanged exactly when it can: a
   * non-empty description of a non-foreign-key error is recovered from the
   * exception, and two such errors with different descriptions throw
   * different exceptions.
   */
  lemma DescriptionPreserved(error: DbError, d1: string, d2: string)
    requires error.number != Some(ForeignKeyViolation) && d1 != "" && d2 != ""
    ensures HandleDatabaseErrors(error, Some(d1)).body == Text(d1)
    ensures HandleDatabaseErrors(error, Some(d1)) == HandleDatabaseErrors(error, Some(d2)) <==> d1 == d2
  {
  }

  /** An empty description counts as none: the fallback object is thrown, not the empty string. */
  lemma EmptyDescriptionFallsBack(error: DbError)
    requires error.number != Some(ForeignKeyViolation)
    ensures HandleDatabaseErrors(error, Some("")) == HandleDatabaseErrors(error, None)
    ensures HandleDatabaseErrors(error, None).body == Message(ServerError)
  {
  }
}
