/**
 * `ResponseError` (loaders/error.loader.ts) and the error-handling middleware
 * (middlewares/error.middleware.ts): a `ResponseError` answers with its own
 * status and `{error: {message}}`, any other error with 500 and `{message}`.
 */
module ResponseErrors {
  /** An error passed to `next(error)`. */
  datatype Error = ResponseError(status: int, message: string) | OtherError(message: string)

  /** The JSON bodies of error responses: `{error: {message}}` or `{message}`. */
  datatype Body = ErrorEnvelope(message: string) | MessageBody(message: string)

  datatype Response = Response(status: int, body: Body)

  /** What a middleware does: `next()` or `next(error)`. */
  datatype Next = Proceed | Fail(error: Error)

  const InternalServerError := 500

  /** `ResponseError.send`. */
  function Send(status: int, message: string): (r: Response)
    ensures r.status == status && r.body.ErrorEnvelope? && r.body.message == message
  {
    Response(status, ErrorEnvelope(message))
  }

  /** The error middleware: exactly one response, `next` never called. */
  function HandleError(err: Error): (r: Response)
    ensures r.body.message == err.message
    ensures r.body.ErrorEnvelope? <==> err.ResponseError?
    ensures r.status == if err.ResponseError? then err.status else InternalServerError
  {
    match err
    case ResponseError(status, message) => Send(status, message)
    case OtherError(message) => Response(InternalServerError, MessageBody(message))
  }

  /** Reading an error back from the response the middleware sent. */
  function ErrorOf(r: Response): Error {
    match r.body
    case ErrorEnvelope(message) => ResponseError(r.status, message)
    case MessageBody(message) => OtherError(message)
  }

  /** Nothing about the error is lost: the response determines the error. */
  lemma HandleErrorRoundTrip(err: Error)
    ensures ErrorOf(HandleError(err)) == err
  {
  }

  /** Distinct errors get distinct responses. */
  lemma HandleErrorInjective(e1: Error, e2: Error)
    ensures HandleError(e1) == HandleError(e2) ==> e1 == e2
  {
    HandleErrorRoundTrip(e1);
    HandleErrorRoundTrip(e2);
  }
}
