/**
  * `String.prototype.trim` and the blank test the send button relies on.
  *
  * Trimming removes the ECMAScript WhiteSpace and LineTerminator code points from
  * both ends. A trimmed string is falsy exactly when it is empty, which happens
  * exactly when every character of the original is white space (`IsBlank`).
  */
module Whitespace {

  /**
    * ECMAScript WhiteSpace (tab, vertical tab, form feed, no-break space, byte
    * order mark and the Unicode space separators) and LineTerminator (line feed,
    * carriage return, line and paragraph separators).
    */
  predicate IsWhitespace(c: char) {
    var n := c as int;
    n == 0x09 || n == 0x0A || n == 0x0B || n == 0x0C || n == 0x0D ||
    n == 0x20 || n == 0xA0 || n == 0x1680 ||
    (0x2000 <= n <= 0x200A) ||
    n == 0x2028 || n == 0x2029 || n == 0x202F || n == 0x205F ||
    n == 0x3000 || n == 0xFEFF
  }

  /** Every character is white space (the empty string included). */
  predicate IsBlank(s: string) {
    forall i :: 0 <= i < |s| ==> IsWhitespace(s[i])
  }

  /** Drops the leading white space: what remains is a suffix that does not start with white space. */
  function TrimStart(s: string): (r: string)
    ensures |r| <= |s| && r == s[|s| - |r|..]
    ensures r == [] || !IsWhitespace(r[0])
    ensures forall i :: 0 <= i < |s| - |r| ==> IsWhitespace(s[i])
    decreases |s|
  {
    if s != [] && IsWhitespace(s[0]) then TrimStart(s[1..]) else s
  }

  /** Drops the trailing white space: what remains is a prefix that does not end with white space. */
  function TrimEnd(s: string): (r: string)
    ensures |r| <= |s| && r == s[..|r|]
    ensures r == [] || !IsWhitespace(r[|r| - 1])
    ensures forall i :: |r| <= i < |s| ==> IsWhitespace(s[i])
    decreases |s|
  {
    if s != [] && IsWhitespace(s[|s| - 1]) then TrimEnd(s[..|s| - 1]) else s
  }

  /** `s.trim()`. */
  function Trim(s: string): string {
    TrimEnd(TrimStart(s))
  }

  /** The trimmed string is empty exactly when the original is blank. */
  lemma TrimEmptyIffBlank(s: string)
    ensures Trim(s) == "" <==> IsBlank(s)
  {
    var t := TrimStart(s);
    assert t == [] || !IsWhitespace(t[0]);
    if Trim(s) != "" {
      var r := Trim(s);
      assert !IsWhitespace(r[0]);
      assert r[0] == s[|s| - |t|];
    }
  }
}
