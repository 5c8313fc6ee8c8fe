/** The validation helpers and the standard error body of pkg/utils/error_utils.go. */
module ErrorUtils {
  import opened GoStrings

  /** The error body returned to HTTP clients; `statusCode` is not serialised. */
  datatype APIError = APIError(statusCode: int, code: string, message: string, details: string)

  const StatusBadRequest: int := 400
  const ErrCodeBadRequest: string := "BAD_REQUEST"
  const ErrCodeUnauthorized: string := "UNAUTHORIZED"
  const ErrCodeForbidden: string := "FORBIDDEN"
  const ErrCodeNotFound: string := "NOT_FOUND"
  const ErrCodeConflict: string := "CONFLICT"
  const ErrCodeInternalServerError: string := "INTERNAL_SERVER_ERROR"
  const ErrCodeValidationFailed: string := "VALIDATION_FAILED"

  /** NewAPIError copies its four arguments into the error body. */
  function NewAPIError(statusCode: int, code: string, message: string, details: string): (e: APIError)
    ensures e.statusCode == statusCode && e.code == code
    ensures e.message == message && e.details == details
  {
    APIError(statusCode, code, message, details)
  }

  /** The body sent by RespondValidationFailed: always 400, VALIDATION_FAILED and a fixed message. */
  function ValidationFailed(details: string): (e: APIError)
    ensures e.statusCode == 400 && e.code == "VALIDATION_FAILED"
    ensures e.message == "Input validation failed" && e.details == details
  {
    NewAPIError(StatusBadRequest, ErrCodeValidationFailed, "Input validation failed", details)
  }

  /** IsEmpty: the string is empty once white space is trimmed. */
  predicate IsEmpty(s: string) {
    TrimSpace(s) == ""
  }

  /** A string is empty in this sense exactly when every character is white space. */
  lemma IsEmptyIffAllSpace(s: string)
    ensures IsEmpty(s) <==> forall i :: 0 <= i < |s| ==> IsSpace(s[i])
  {
    TrimSpaceEmpty(s);
  }

  /**
   * IsValidEmail: the address matches the e-mail pattern once lower-cased.
   * The regular expression itself is the parameter `matches`.
   */
  predicate IsValidEmail(email: string, matches: string -> bool) {
    matches(ToLower(email))
  }

  /** Because the input is lower-cased first, the verdict ignores ASCII case. */
  lemma IsValidEmailIgnoresCase(a: string, b: string, matches: string -> bool)
    requires EqualFold(a, b)
    ensures IsValidEmail(a, matches) == IsValidEmail(b, matches)
  {
  }

  /** Lower-casing before the call changes nothing. */
  lemma IsValidEmailOfLowered(email: string, matches: string -> bool)
    ensures IsValidEmail(ToLower(email), matches) == IsValidEmail(email, matches)
  {
    ToLowerIdempotent(email);
  }

  /** IsValidPasswordLength: the password has at least `minLength` bytes in UTF-8, as Go's `len` counts. */
  predicate IsValidPasswordLength(password: string, minLength: int) {
    ByteLen(password) >= minLength
  }

  /**
   * Extending a valid password keeps it valid; a non-positive minimum admits every password;
   * `minLength` characters always suffice, and fewer than a quarter of it never do.
   */
  lemma PasswordLengthMonotone(password: string, suffix: string, minLength: int)
    ensures IsValidPasswordLength(password, minLength) ==> IsValidPasswordLength(password + suffix, minLength)
    ensures minLength <= 0 ==> IsValidPasswordLength(password, minLength)
    ensures |password| >= minLength ==> IsValidPasswordLength(password, minLength)
    ensures 4 * |password| < minLength ==> !IsValidPasswordLength(password, minLength)
  {
    ByteLenAppend(password, suffix);
    ByteLenBounds(password);
  }

  /** The length counts bytes, not characters: five two-byte letters pass a minimum of 8. */
  lemma PasswordLengthCountsBytes()
    ensures |"\U{e9}\U{e9}\U{e9}\U{e9}\U{e9}"| == 5
    ensures IsValidPasswordLength("\U{e9}\U{e9}\U{e9}\U{e9}\U{e9}", 8)
    ensures !IsValidPasswordLength("abcde", 8)
  {
  }
}
