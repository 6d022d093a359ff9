/** `handleSupabaseError`: turns a backend error into the message shown to the user. */
module Errors {
  import opened Club
  import opened Text

  const PermissionDenied := "You do not have permission to perform this action."
  const AlreadyExists := "This record already exists."
  const SessionExpired := "Your session has expired. Please log in again."
  const Unexpected := "An unexpected error occurred."

  /** The classification, checked in order: two codes, a JWT message, then the error's own message. */
  function ErrorMessage(e: ApiError): (msg: string)
    ensures msg != ""
    ensures msg in {PermissionDenied, AlreadyExists, SessionExpired, Unexpected, e.message}
  {
    if e.code == "PGRST301" then PermissionDenied
    else if e.code == "23505" then AlreadyExists
    else if Includes(e.message, "JWT") then SessionExpired
    else if e.message != "" then e.message
    else Unexpected
  }

  /** An error without a code and without "JWT" shows its own message. */
  lemma CodelessMessagePassesThrough(message: string)
    requires message != "" && 'J' !in message
    ensures ErrorMessage(ApiError("", message)) == message
  {
    NotIncludesWithoutFirstChar(message, "JWT");
  }

  /** Code PGRST301 means permission denied and 23505 a duplicate, whatever the message says. */
  lemma CodesDecideFirst(e: ApiError)
    ensures e.code == "PGRST301" ==> ErrorMessage(e) == PermissionDenied
    ensures e.code == "23505" ==> ErrorMessage(e) == AlreadyExists
  {
  }

  /** A message mentioning JWT means an expired session, but only when neither code matched. */
  lemma JwtAfterCodes(e: ApiError)
    requires Includes(e.message, "JWT")
    ensures e.code != "PGRST301" && e.code != "23505" ==> ErrorMessage(e) == SessionExpired
    ensures e.code == "PGRST301" ==> ErrorMessage(e) == PermissionDenied
  {
  }

  /**
   * Otherwise the error's own message is shown, or the generic text when it is
   * empty; in particular a message is passed through unchanged exactly when no
   * earlier rule applies.
   */
  lemma FallbackToOwnMessage(e: ApiError)
    requires e.code != "PGRST301" && e.code != "23505" && !Includes(e.message, "JWT")
    ensures e.message != "" ==> ErrorMessage(e) == e.message
    ensures e.message == "" ==> ErrorMessage(e) == Unexpected
  {
  }

  /** A message without "JWT" that names no fixed text is shown only if no code matched. */
  lemma OwnMessageShownOnlyWithoutCode(e: ApiError)
    requires e.message !in {PermissionDenied, AlreadyExists, SessionExpired, Unexpected}
    ensures ErrorMessage(e) == e.message <==>
      e.code != "PGRST301" && e.code != "23505" && !Includes(e.message, "JWT") && e.message != ""
  {
  }
}
