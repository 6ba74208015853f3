/** The two pieces of JavaScript string behaviour the forms rely on: the
    whitespace class `\s` of regular expressions and `String.prototype.trim`.
    ECMAScript defines both over the same set of characters (WhiteSpace and
    LineTerminator), so one predicate serves for both. */
module JsText {

  /** ECMAScript WhiteSpace (TAB, VT, FF, SP, NBSP, ZWNBSP and the Unicode
      space separators) together with LineTerminator (LF, CR, LS, PS). */
  predicate IsWhitespace(c: char)
  {
    || c == '\t' || c == '\n' || c == '\U{000B}' || c == '\U{000C}' || c == '\r'
    || c == ' ' || c == '\U{00A0}' || c == '\U{1680}'
    || ('\U{2000}' <= c <= '\U{200A}')
    || c == '\U{2028}' || c == '\U{2029}' || c == '\U{202F}' || c == '\U{205F}'
    || c == '\U{3000}' || c == '\U{FEFF}'
  }

  /** Empty or made of whitespace only. */
  predicate IsBlank(s: string)
  {
    forall k | 0 <= k < |s| :: IsWhitespace(s[k])
  }

  /** The length of the whitespace run at the start of `s`. */
  function LeadingWhitespace(s: string): (n: nat)
    ensures n <= |s|
    ensures forall k | 0 <= k < n :: IsWhitespace(s[k])
    ensures n < |s| ==> !IsWhitespace(s[n])
  {
    if |s| > 0 && IsWhitespace(s[0]) then
      var n := 1 + LeadingWhitespace(s[1..]);
      assert forall k | 1 <= k < n :: s[k] == s[1..][k - 1];
      n
    else
      0
  }

  /** The length of the whitespace run at the end of `s`. */
  function TrailingWhitespace(s: string): (n: nat)
    ensures n <= |s|
    ensures forall k | |s| - n <= k < |s| :: IsWhitespace(s[k])
    ensures n < |s| ==> !IsWhitespace(s[|s| - 1 - n])
  {
    if |s| > 0 && IsWhitespace(s[|s| - 1]) then
      var n := 1 + TrailingWhitespace(s[..|s| - 1]);
      assert forall k | |s| - n <= k < |s| - 1 :: s[k] == s[..|s| - 1][k];
      n
    else
      0
  }

  /** `String.prototype.trim`: `s` without its leading and trailing
      whitespace. The result is the slice of `s` that starts at the first
      non-whitespace character and ends at the last one; it is empty exactly
      when `s` is blank. */
  function Trim(s: string): (r: string)
    ensures r == [] <==> IsBlank(s)
    ensures r != [] ==> !IsWhitespace(r[0]) && !IsWhitespace(r[|r| - 1])
    ensures LeadingWhitespace(s) + |r| <= |s|
    ensures r == s[LeadingWhitespace(s)..LeadingWhitespace(s) + |r|]
    ensures forall k | LeadingWhitespace(s) + |r| <= k < |s| :: IsWhitespace(s[k])
  {
    var lead := LeadingWhitespace(s);
    if lead == |s| then
      []
    else
      var trail := TrailingWhitespace(s);
      assert !IsWhitespace(s[lead]);
      assert trail < |s| - lead;
      s[lead..|s| - trail]
  }

  /** The trimmed text has at least two characters exactly when `s` holds
      two non-whitespace characters, wherever they stand. */
  lemma {:induction false} TrimmedAtLeastTwo(s: string)
    ensures |Trim(s)| >= 2 <==>
            exists i, j | 0 <= i < j < |s| :: !IsWhitespace(s[i]) && !IsWhitespace(s[j])
  {
    var lead, r := LeadingWhitespace(s), Trim(s);
    if |r| >= 2 {
      assert s[lead] == r[0] && s[lead + |r| - 1] == r[|r| - 1];
    }
    if exists i, j | 0 <= i < j < |s| :: !IsWhitespace(s[i]) && !IsWhitespace(s[j]) {
      var i, j :| 0 <= i < j < |s| && !IsWhitespace(s[i]) && !IsWhitespace(s[j]);
      assert lead <= i;
      assert j < lead + |r|;
    }
  }
}
