/** The part of JavaScript string semantics the printer relies on:
    `String.prototype.trim` and the truthiness of strings. */
module JsText {

  /** The characters `trim` removes: the WhiteSpace and LineTerminator code
      points of ECMAScript (section 12.2 and 12.3 of ECMA-262). */
  predicate IsWhitespace(c: char)
  {
    c == '\t' || c == '\n' || c == '\U{000B}' || c == '\U{000C}' || c == '\r' || c == ' '
    || c == '\U{00A0}' || c == '\U{1680}' || ('\U{2000}' <= c <= '\U{200A}')
    || c == '\U{2028}' || c == '\U{2029}' || c == '\U{202F}' || c == '\U{205F}'
    || c == '\U{3000}' || c == '\U{FEFF}'
  }

  predicate AllWhitespace(s: string)
  {
    forall i :: 0 <= i < |s| ==> IsWhitespace(s[i])
  }

  /** The number of leading whitespace characters of `s`: every character
      before that index is whitespace, the one at it (if any) is not. */
  function Lead(s: string): (k: nat)
    ensures k <= |s|
    ensures forall i :: 0 <= i < k ==> IsWhitespace(s[i])
    ensures k < |s| ==> !IsWhitespace(s[k])
  {
    if s != [] && IsWhitespace(s[0]) then 1 + Lead(s[1..]) else 0
  }

  /** The end of the non-whitespace part of `s` at or after `k`: every
      character from there on is whitespace, the one just before it (if it is
      past `k`) is not. */
  function Stop(s: string, k: nat): (e: nat)
    requires k <= |s|
    ensures k <= e <= |s|
    ensures forall i :: e <= i < |s| ==> IsWhitespace(s[i])
    ensures k < e ==> !IsWhitespace(s[e - 1])
  {
    if k < |s| && IsWhitespace(s[|s| - 1]) then Stop(s[..|s| - 1], k) else |s|
  }

  /** `s.trim()`: the slice of `s` between its leading and its trailing
      whitespace. */
  function Trim(s: string): (r: string)
    ensures r != [] ==> !IsWhitespace(r[0]) && !IsWhitespace(r[|r| - 1])
  {
    s[Lead(s)..Stop(s, Lead(s))]
  }

  /** A string is falsy in JavaScript exactly when it is empty. */
  predicate Truthy(s: string)
  {
    s != []
  }

  /** `!s.trim()` holds exactly when `s` consists of whitespace only (the
      empty string included). */
  lemma BlankIffAllWhitespace(s: string)
    ensures !Truthy(Trim(s)) <==> AllWhitespace(s)
  {
    var k := Lead(s);
    if !AllWhitespace(s) {
      assert k < |s|;
      assert k < Stop(s, k);
    }
  }

  /** Trimming cuts whitespace only: what lies before and after the trimmed
      slice is all whitespace. */
  lemma TrimCutsOnlyWhitespace(s: string)
    ensures exists k, e :: 0 <= k <= e <= |s| && Trim(s) == s[k..e]
                          && AllWhitespace(s[..k]) && AllWhitespace(s[e..])
  {
    var k := Lead(s);
    var e := Stop(s, k);
    assert AllWhitespace(s[..k]);
    assert AllWhitespace(s[e..]);
  }
}
