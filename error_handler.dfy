/** The ordered classification of src/middleware/errorHandler.ts: the first
    matching check picks the status and the reply. */
module ErrorHandler {
  import opened Strings

  /** A thrown error: its `name` and its `message`. */
  datatype JsError = JsError(name: string, message: string)

  datatype ErrorReply = ErrorReply(status: int, error: string, message: string)

  const GENERIC_MESSAGE: string := "Something went wrong"

  predicate IsAuthMessage(m: string) { Contains(m, "Unauthorized") || Contains(m, "token") }
  predicate IsUploadSizeMessage(m: string) { Contains(m, "File too large") }
  predicate IsConflictMessage(m: string) { Contains(m, "duplicate key") || Contains(m, "unique constraint") }

  /** `errorHandler`; `development` is whether NODE_ENV is 'development'.
      Each status is characterised by its own check and the failure of every
      earlier one, so exactly one applies and earlier checks win. */
  function HandleError(e: JsError, development: bool): (r: ErrorReply)
    ensures r.status == 400 <==> e.name == "ValidationError"
    ensures r.status == 401 <==> e.name != "ValidationError" && IsAuthMessage(e.message)
    ensures r.status == 413 <==>
      e.name != "ValidationError" && !IsAuthMessage(e.message) && IsUploadSizeMessage(e.message)
    ensures r.status == 409 <==>
      && e.name != "ValidationError" && !IsAuthMessage(e.message) && !IsUploadSizeMessage(e.message)
      && IsConflictMessage(e.message)
    ensures r.status == 500 <==>
      && e.name != "ValidationError" && !IsAuthMessage(e.message) && !IsUploadSizeMessage(e.message)
      && !IsConflictMessage(e.message)
    ensures r.status in {400, 401, 409, 413, 500}
    ensures r.status in {400, 401} ==> r.message == e.message
    ensures r.status == 400 ==> r.error == "Validation failed"
    ensures r.status == 401 ==> r.error == "Authentication failed"
    ensures r.status == 413 ==> r == ErrorReply(413, "File too large", "File size exceeds maximum allowed limit")
    ensures r.status == 409 ==> r == ErrorReply(409, "Conflict", "Resource already exists")
    ensures r.status == 500 ==>
      r.error == "Internal server error" && r.message == (if development then e.message else GENERIC_MESSAGE)
  {
    if e.name == "ValidationError" then ErrorReply(400, "Validation failed", e.message)
    else if IsAuthMessage(e.message) then ErrorReply(401, "Authentication failed", e.message)
    else if IsUploadSizeMessage(e.message) then
      ErrorReply(413, "File too large", "File size exceeds maximum allowed limit")
    else if IsConflictMessage(e.message) then ErrorReply(409, "Conflict", "Resource already exists")
    else ErrorReply(500, "Internal server error", if development then e.message else GENERIC_MESSAGE)
  }

  /** The store's duplicate-key failure becomes 409 unless its text also
      mentions a token: a message naming both gets 401. */
  lemma DuplicateKeyIsConflict(message: string, development: bool)
    requires StartsWith(message, "duplicate key")
    ensures IsAuthMessage(message) ==> HandleError(JsError("Error", message), development).status == 401
    ensures !IsAuthMessage(message) && !IsUploadSizeMessage(message) ==>
      HandleError(JsError("Error", message), development) == ErrorReply(409, "Conflict", "Resource already exists")
  {
    ContainsAt(message, "duplicate key", 0);
  }
}
