/**
 * The request and response values the two API routes exchange: what
 * `request.json()` yields for one field of the body, and what
 * `NextResponse.json(body, { status })` sends back.
 */
module Http {

  /** One field of a parsed JSON body; `Missing` is a field that is absent (`undefined`). */
  datatype JsonValue =
    | Missing
    | JNull
    | JBool(b: bool)
    | JNum(n: int)
    | JStr(s: string)

  /** `!v || typeof v !== 'string'` is false exactly for a non-empty string. */
  predicate IsNonEmptyString(v: JsonValue) {
    v.JStr? && v.s != []
  }

  datatype ResponseBody =
    | ErrorBody(error: string)
    | SuccessBody(success: bool)

  datatype Response = Response(status: int, body: ResponseBody)

  function ErrorResponse(status: int, message: string): Response {
    Response(status, ErrorBody(message))
  }

  const INTERNAL_ERROR := "Internal server error"
}
