/**
 * The shape of an axios request's outcome as the screens inspect it.
 */
module Http {
  import opened Wrappers
  import opened JsValue

  datatype Response = Response(status: int, data: Value)

  /** What a `catch` block receives: `error.code`, `error.response` and `error.message`. */
  datatype Failure = Failure(code: Option<string>, response: Option<Response>, message: string)

  /** The outcome of one request: the server's response, or a thrown error. */
  datatype Reply = Answered(response: Response) | Failed(failure: Failure)

  /** Text shown in an alert: a fixed string, or a value taken from the server's reply. */
  datatype Message = Text(text: string) | FromServer(value: Value)

  /** A TypeError thrown by the screen's own code: no code, no response. */
  function TypeError(message: string): Failure {
    Failure(None, None, message)
  }

  /** `error.response?.data?.error` */
  function ServerError(f: Failure): Value {
    if f.response.None? then Undefined else OptProp(f.response.value.data, "error")
  }

  /** `error.response?.data?.error || fallback`: the server's own message when it sent one. */
  function ServerErrorOr(f: Failure, fallback: string): (m: Message)
    ensures m.FromServer? <==> Truthy(ServerError(f))
    ensures m.FromServer? ==> m.value == ServerError(f)
    ensures m.Text? ==> m.text == fallback
  {
    if Truthy(ServerError(f)) then FromServer(ServerError(f)) else Text(fallback)
  }

  /** `error.response?.status === 403` */
  predicate IsForbidden(f: Failure) {
    f.response.Some? && f.response.value.status == 403
  }
}
