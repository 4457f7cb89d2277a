/** The application's error class and the function that turns anything
    thrown by an API call into a message and an HTTP status, mapping the
    database service's error codes to statuses. */
module ErrorHandler {
  import opened Util

  /** `AppError`: an error with an HTTP status, always marked operational. */
  datatype AppError = AppError(message: string, statusCode: int, isOperational: bool)

  /** `new AppError(message, statusCode = 500)`. */
  function NewAppError(message: string, statusCode: int := 500): (e: AppError)
    ensures e.message == message && e.statusCode == statusCode
    ensures e.isOperational
  {
    AppError(message, statusCode, true)
  }

  /** The constructor's default status is 500. */
  lemma DefaultStatus(message: string)
    ensures NewAppError(message).statusCode == 500
    ensures NewAppError(message) == NewAppError(message, 500)
  {
  }

  /** What can reach `handleApiError`: an `AppError` (possibly also carrying
      a `code` property), any other `Error` (with or without a `code`
      property), any other non-null object, and everything else (null,
      undefined and primitives). */
  datatype Thrown =
    | App(error: AppError, appCode: Option<string>)
    | Err(errMessage: string, errCode: Option<string>)
    | Obj(code: Option<string>, message: Option<string>)
    | Other

  /** The `{ message, statusCode }` reply. */
  datatype ApiError = ApiError(message: string, statusCode: int)

  const UNEXPECTED: string := "An unexpected error occurred"

  /** The statuses the code table can produce. */
  const TABLE_STATUSES: set<int> := {400, 403, 404, 409, 500}

  /** `getStatusCodeFromSupabaseError`. */
  function StatusFromCode(code: string): (status: int)
    ensures status in TABLE_STATUSES
  {
    if code == "PGRST116" then 404
    else if code == "PGRST109" then 409
    else if code == "PGRST104" then 400
    else if code == "PGRST301" || code == "42501" then 403
    else 500
  }

  /** The code table, read in both directions: each status other than 500
      comes from exactly the codes listed for it, and every other code maps
      to 500. */
  lemma StatusTable(code: string)
    ensures StatusFromCode(code) == 404 <==> code == "PGRST116"
    ensures StatusFromCode(code) == 409 <==> code == "PGRST109"
    ensures StatusFromCode(code) == 400 <==> code == "PGRST104"
    ensures StatusFromCode(code) == 403 <==> code in {"PGRST301", "42501"}
    ensures StatusFromCode(code) == 500 <==> code !in {"PGRST116", "PGRST109", "PGRST104", "PGRST301", "42501"}
  {
  }

  /** The thrown value has both a `code` and a `message` property. */
  predicate HasCodeAndMessage(t: Thrown)
  {
    (t.Err? && t.errCode.Some?) || (t.Obj? && t.code.Some? && t.message.Some?)
  }

  /** `handleApiError`. */
  function HandleApiError(t: Thrown): (r: ApiError)
    ensures t.App? ==> r == ApiError(t.error.message, t.error.statusCode)
    ensures !t.App? ==> r.statusCode in TABLE_STATUSES
    ensures !t.App? && !HasCodeAndMessage(t) ==> r.statusCode == 500
    ensures t.Err? ==> r.message == t.errMessage
    ensures t.Other? ==> r == ApiError(UNEXPECTED, 500)
  {
    match t
    case App(e, _) => ApiError(e.message, e.statusCode)
    case Err(m, code) =>
      if code.Some? then ApiError(m, StatusFromCode(code.value)) else ApiError(m, 500)
    case Obj(code, message) =>
      if code.Some? && message.Some? then ApiError(message.value, StatusFromCode(code.value))
      else ApiError(UNEXPECTED, 500)
    case Other => ApiError(UNEXPECTED, 500)
  }

  /** An application error is reported with its own message and status,
      whatever `code` property it carries: that check comes first. */
  lemma AppErrorFirst(message: string, statusCode: int, code: Option<string>)
    ensures HandleApiError(App(NewAppError(message, statusCode), code)) == ApiError(message, statusCode)
  {
  }

  /** Any value with a code and a message, Error or plain object, is
      reported with that message and the status the table gives its code. */
  lemma CodedErrorsMapped(t: Thrown)
    requires HasCodeAndMessage(t)
    ensures t.Err? ==> HandleApiError(t) == ApiError(t.errMessage, StatusFromCode(t.errCode.value))
    ensures t.Obj? ==> HandleApiError(t) == ApiError(t.message.value, StatusFromCode(t.code.value))
  {
  }

  /** Without a code, an Error keeps its message and any other value reads
      "An unexpected error occurred"; both get 500. */
  lemma UncodedErrors(t: Thrown)
    requires !t.App? && !HasCodeAndMessage(t)
    ensures HandleApiError(t).statusCode == 500
    ensures HandleApiError(t).message == if t.Err? then t.errMessage else UNEXPECTED
  {
  }

  /** A status other than 500 outside the application-error branch always
      comes from one of the five listed codes. */
  lemma Non500NeedsKnownCode(t: Thrown)
    requires !t.App?
    requires HandleApiError(t).statusCode != 500
    ensures HasCodeAndMessage(t)
    ensures var code := if t.Err? then t.errCode.value else t.code.value;
      code in {"PGRST116", "PGRST109", "PGRST104", "PGRST301", "42501"}
  {
    var code := if t.Err? then t.errCode.value else t.code.value;
    StatusTable(code);
  }
}
