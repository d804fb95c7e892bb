/** Failure-carrying datatypes shared by every module of the model. */
module Wrappers {

  datatype Option<+T> = None | Some(value: T)

  /** A key of a JSON request body: missing, `null`, or a value. */
  datatype Field<+T> = Absent | JsonNull | Given(value: T)

  /** The outcome of a request handler: the JSON body it returns, or the
      status code and detail of the HTTPException it raises. */
  datatype Response<+T> = Ok(body: T) | Error(status: int, detail: string)

  /** The body `{"message": …, "id": …}` of an endpoint that inserts a row. */
  datatype Created = Created(message: string, id: int)

  /** What FastAPI answers when a handler raises anything other than an
      HTTPException (a failed constraint, a TypeError, a ValueError). */
  const InternalServerError := "Internal Server Error"

  function OrElse<T>(o: Option<T>, default: T): T
  {
    match o
    case Some(v) => v
    case None => default
  }
}
