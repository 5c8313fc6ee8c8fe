/** NewNullString of pkg/utils/string_utils.go: an optional column value from a string. */
module StringUtils {
  import opened Wrappers

  /** The empty string becomes NULL (nil); any other string is kept. */
  function NewNullString(s: string): (r: Option<string>)
    ensures s == "" <==> r.None?
    ensures r.Some? ==> r.value == s
  {
    if s == "" then None else Some(s)
  }

  /** The result never holds the empty string, and reading NULL back as "" returns the input. */
  lemma NewNullStringRoundTrip(s: string)
    ensures NewNullString(s) != Some("")
    ensures NewNullString(s).GetOr("") == s
  {
  }
}
