/** The syntactic rule for user-supplied custom shortcodes. */
module Shortcode {
  import opened Js

  const MinLen := 4
  const MaxLen := 32

  /** The character class `[A-Za-z0-9_-]`. */
  predicate IsCodeChar(c: char) {
    ('A' <= c <= 'Z') || ('a' <= c <= 'z') || ('0' <= c <= '9') || c == '_' || c == '-'
  }

  /** Scans `s` the way the anchored pattern `^[A-Za-z0-9_-]+$` consumes it
      after its first character: every character must be in the class. */
  function AllCodeChars(s: string): (ok: bool)
    ensures ok <==> forall i :: 0 <= i < |s| ==> IsCodeChar(s[i])
  {
    if s == [] then true else IsCodeChar(s[0]) && AllCodeChars(s[1..])
  }

  /** The test of `^[A-Za-z0-9_-]+$`: at least one character, all in the class. */
  predicate MatchesCodePattern(s: string) {
    s != [] && AllCodeChars(s)
  }

  /** `isValidCustom(code)`: a falsy or non-string value is refused, then a
      string whose length is outside 4..32, then one the pattern refuses.
      Being a function, it has no state and answers the same on every call. */
  function IsValidCustom(code: Field): (ok: bool)
    ensures !Truthy(code) || !code.Text? ==> !ok
    ensures code.Text? && |code.s| < MinLen ==> !ok
    ensures code.Text? && |code.s| > MaxLen ==> !ok
    ensures ok <==>
      code.Text? && MinLen <= |code.s| <= MaxLen && forall i :: 0 <= i < |code.s| ==> IsCodeChar(code.s[i])
  {
    if !Truthy(code) || !code.Text? then false
    else if |code.s| < MinLen || |code.s| > MaxLen then false
    else MatchesCodePattern(code.s)
  }
}
