/**
 * The two JavaScript string built-ins the registration controller relies on:
 * `String.prototype.trim` (blank-field test) and `String.prototype.toLowerCase`
 * (username normalisation). Strings are sequences of code points.
 */
module JsString {

  /** ECMAScript WhiteSpace and LineTerminator code points: exactly what `trim` strips. */
  predicate IsWhiteSpace(c: char)
  {
    var n := c as int;
    n == 0x09 || n == 0x0A || n == 0x0B || n == 0x0C || n == 0x0D || n == 0x20 ||
    n == 0xA0 || n == 0x1680 || (0x2000 <= n <= 0x200A) || n == 0x2028 ||
    n == 0x2029 || n == 0x202F || n == 0x205F || n == 0x3000 || n == 0xFEFF
  }

  /** Drops the leading white space: what is left is a suffix starting with a non-space. */
  function TrimStart(s: string): (r: string)
    ensures |r| <= |s| && r == s[|s| - |r|..]
    ensures forall i :: 0 <= i < |s| - |r| ==> IsWhiteSpace(s[i])
    ensures r != [] ==> !IsWhiteSpace(r[0])
    decreases |s|
  {
    if s != [] && IsWhiteSpace(s[0]) then TrimStart(s[1..]) else s
  }

  /** Drops the trailing white space: what is left is a prefix ending with a non-space. */
  function TrimEnd(s: string): (r: string)
    ensures |r| <= |s| && r == s[..|r|]
    ensures forall i :: |r| <= i < |s| ==> IsWhiteSpace(s[i])
    ensures r != [] ==> !IsWhiteSpace(r[|r| - 1])
    decreases |s|
  {
    if s != [] && IsWhiteSpace(s[|s| - 1]) then TrimEnd(s[..|s| - 1]) else s
  }

  /** `s.trim()`: empty exactly when every code point of `s` is white space. */
  function Trim(s: string): (r: string)
    ensures |r| <= |s|
    ensures r == [] <==> forall i :: 0 <= i < |s| ==> IsWhiteSpace(s[i])
    ensures r != [] ==> !IsWhiteSpace(r[0]) && !IsWhiteSpace(r[|r| - 1])
  {
    TrimEnd(TrimStart(s))
  }

  function LowerChar(c: char): (d: char)
  {
    if 'A' <= c <= 'Z' then (c as int + 32) as char else c
  }

  /**
   * `s.toLowerCase()`, restricted to ASCII letters: each code point is lowered
   * on its own and the length is kept.
   */
  function ToLower(s: string): (r: string)
    ensures |r| == |s|
    ensures forall i :: 0 <= i < |s| ==> r[i] == LowerChar(s[i])
    ensures forall i :: 0 <= i < |r| ==> !('A' <= r[i] <= 'Z')
  {
    if s == [] then [] else [LowerChar(s[0])] + ToLower(s[1..])
  }

  /** A string is left as it is by `toLowerCase` exactly when it holds no upper-case letter. */
  lemma ToLowerFixedIff(s: string)
    ensures ToLower(s) == s <==> forall i :: 0 <= i < |s| ==> !('A' <= s[i] <= 'Z')
  {
    if forall i :: 0 <= i < |s| ==> !('A' <= s[i] <= 'Z') {
      assert forall i :: 0 <= i < |s| ==> ToLower(s)[i] == s[i];
    }
  }
}
