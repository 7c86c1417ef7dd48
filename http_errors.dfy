/**
 * The NestJS HTTP exceptions the core throws, and the entries of
 * `CUSTOM_MESSAGES` it uses. An exception built from a string carries that
 * string as its message; one built from an object carries the object itself.
 */
module HttpErrors {

  /** An entry of `CUSTOM_MESSAGES`: a status code and a description. */
  datatype CustomMessage = CustomMessage(code: int, description: string)

  /** What an exception was constructed with. */
  datatype Body = Text(text: string) | Message(message: CustomMessage)

  datatype HttpException =
    | BadRequest(body: Body)
    | NotFound(body: Body)
    | InternalServerError(body: Body)
  {
    /** The HTTP status NestJS answers with. */
    function Status(): int {
      match this
      case BadRequest(_) => 400
      case NotFound(_) => 404
      case InternalServerError(_) => 500
    }
  }

  const NotFoundUser: CustomMessage :=
    CustomMessage(404, "The server cannot find the requested content or the services is blocked.")

  const ServerError: CustomMessage :=
    CustomMessage(500, "Has ocurred an internal server error.")

  const ValidForeignKeys: CustomMessage :=
    CustomMessage(400, "Has occurred an error with one of the foreign keys on this request. Please, validate your data.")
}
