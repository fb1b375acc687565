/**
 * What every handler shares: the outcome of binding a JSON request body,
 * and the status and JSON body of the reply.
 */
module Http {

  /** Binding the request body: either it fails (with the binder's message) or yields a value. */
  datatype Bind<T> = Invalid(reason: string) | Valid(value: T)

  /** A reply: an HTTP status code and a JSON body. */
  datatype Reply<B> = Reply(status: int, body: B)

  /** The JSON bodies of the per-user record handlers. */
  datatype Body<T> =
    | Message(text: string)  // {"message": text}
    | Error(text: string)    // {"error": text}
    | Item(item: T)          // one record
    | Items(items: seq<T>)   // a list of records

  const OK := 200
  const Created := 201
  const BadRequest := 400
  const Unauthorized := 401
  const NotFound := 404
  const Conflict := 409
  const InternalServerError := 500
}
