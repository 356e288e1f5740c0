/** What the serverless handlers share: the JSON response shape, errors thrown to
    the outer catch, and reading a required environment variable. */
module Http {
  import opened JsValues

  /** A handler's answer: `{ ok: false, error }` with a status, or `{ ok: true, ... }`
      with status 200 and the handler's own payload. */
  datatype Response<T> = Fail(status: int, error: string) | Ok(data: T)

  function StatusOf<T>(r: Response<T>): int
  {
    if r.Ok? then 200 else r.status
  }

  /** An error thrown inside a handler; `statusCode` is the field some errors carry. */
  datatype Thrown = Thrown(statusCode: Option<int>, message: string)

  /** The outer catch: `e.statusCode || 500`; a missing or zero code becomes 500. */
  function CaughtStatus(e: Thrown): (s: int)
    ensures e.statusCode.Some? && e.statusCode.value != 0 ==> s == e.statusCode.value
    ensures e.statusCode.None? || e.statusCode == Some(0) ==> s == 500
  {
    if e.statusCode.Some? && e.statusCode.value != 0 then e.statusCode.value else 500
  }

  /** What a handler does: answer, or throw to the caller's catch. */
  datatype Outcome<T> = Returned(resp: Response<T>) | Threw(e: Thrown)

  /** The catch-all around a handler: a thrown error answers with its status code,
      or 500, and its message. */
  function Finish<T>(o: Outcome<T>): (r: Response<T>)
    ensures o.Returned? ==> r == o.resp
    ensures o.Threw? ==> r.Fail? && r.status == CaughtStatus(o.e) && r.error == o.e.message
  {
    match o
    case Returned(resp) => resp
    case Threw(e) => Fail(CaughtStatus(e), e.message)
  }

  /** The answer of a store call: its data, or the error it reports. */
  datatype StoreResult<T> = Stored(value: T) | StoreError(message: string)

  /** A `leagues` row; of the columns the chat handlers select, only `id` is used. */
  datatype LeagueRow = LeagueRow(id: JsValue)

  /** An environment variable, None when it is not set. */
  type Env = Option<string>

  /** requireEnv: a missing or empty variable throws "Missing env: NAME". */
  function RequireEnv(name: string, v: Env): (r: Option<string>)
    ensures r.Some? <==> v.Some? && v.value != ""
    ensures r.Some? ==> r.value == v.value
  {
    if v.Some? && v.value != "" then Some(v.value) else None
  }

  function MissingEnv(name: string): Thrown
  {
    Thrown(None, "Missing env: " + name)
  }

  const MethodNotAllowed := "Method not allowed"
}
