/**
 * What a route handler hands on: either it answers the request, or it calls
 * `next(err)` with an error made by `createHttpError` or with whatever a
 * statement threw (a TypeError, say).
 */
module HttpErrors {
  import opened Wrappers
  import opened Json

  /** One entry of express-validator's `validationResult(req).array()`. */
  datatype FieldError = FieldError(path: string, location: string, value: Option<Value>, msg: string)

  /** The `err` an error-handling middleware receives. */
  datatype Failure =
    | HttpError(status: int, message: string, errorsList: Option<seq<FieldError>>)
    | Thrown(cause: string)

  /** A handler either sends a reply (`res.status(..).send(..)`) or forwards an error (`next(err)`). */
  datatype Outcome =
    | Replied(status: int, body: Option<Value>)
    | Forwarded(error: Failure)

  /** The TypeError of reading `req.file.path` or `req.file.originalname` when the request carries no file. */
  const NoFile: Failure := Thrown("TypeError: req.file is undefined")
}
