/** The little string handling the handlers do: the `!field` presence test
    and `String.prototype.toLowerCase`, restricted to ASCII letters. */
module Text {

  /** A request field the handlers reject with `!field`: absent or empty. */
  predicate Blank(s: string) {
    |s| == 0
  }

  predicate IsUpper(c: char) {
    'A' <= c <= 'Z'
  }

  function LowerChar(c: char): char {
    if IsUpper(c) then (c as int + 32) as char else c
  }

  function ToLower(s: string): string {
    seq(|s|, i requires 0 <= i < |s| => LowerChar(s[i]))
  }

  /** No upper-case ASCII letter occurs in `s`. */
  predicate IsLower(s: string) {
    forall i :: 0 <= i < |s| ==> !IsUpper(s[i])
  }

  /** Lower-casing keeps the length and leaves no upper-case letter. */
  lemma ToLowerIsLower(s: string)
    ensures |ToLower(s)| == |s|
    ensures IsLower(ToLower(s))
  {
  }

  /** A string is a fixed point of lower-casing exactly when it is already
      lower case; so lower-casing is idempotent. */
  lemma ToLowerFixesLower(s: string)
    ensures ToLower(s) == s <==> IsLower(s)
    ensures ToLower(ToLower(s)) == ToLower(s)
  {
  }
}
