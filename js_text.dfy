/** The pieces of JavaScript string semantics the component relies on:
    truthiness, `toLowerCase` and `trim`. */
module JsText {
  import opened Wrappers

  /** JavaScript truthiness of an optional string property: both `undefined`
      and the empty string are falsy. */
  predicate Truthy(s: Option<string>) {
    s.Some? && s.value != ""
  }

  predicate IsUpper(c: char) {
    'A' <= c <= 'Z'
  }

  /** A string that `toLowerCase` leaves unchanged (within the modelled letters). */
  predicate IsLowercase(s: string) {
    forall i :: 0 <= i < |s| ==> !IsUpper(s[i])
  }

  function LowerChar(c: char): char {
    if IsUpper(c) then (c as int + 32) as char else c
  }

  /** `String.prototype.toLowerCase`, restricted to the letters A-Z. */
  function ToLower(s: string): (r: string)
    ensures |r| == |s| && IsLowercase(r)
    ensures forall i :: 0 <= i < |s| && !IsUpper(s[i]) ==> r[i] == s[i]
    ensures forall i :: 0 <= i < |s| && IsUpper(s[i]) ==> r[i] as int == s[i] as int + 32
  {
    seq(|s|, i requires 0 <= i < |s| => LowerChar(s[i]))
  }

  /** A string without upper-case letters is its own lower-case form. */
  lemma LowercaseIsFixed(s: string)
    requires IsLowercase(s)
    ensures ToLower(s) == s
  {
    var r := ToLower(s);
    assert forall i :: 0 <= i < |s| ==> r[i] == s[i];
  }

  /** ECMAScript's WhiteSpace and LineTerminator code points, which `trim` removes:
      tab, line feed, vertical tab, form feed, carriage return, space, no-break
      space, the byte order mark, the line and paragraph separators, and the
      space separators U+1680, U+2000-U+200A, U+202F, U+205F and U+3000. */
  predicate IsJsWhitespace(c: char) {
    || c == '\t' || c == '\n' || c == '\U{000B}' || c == '\U{000C}' || c == '\r'
    || c == ' ' || c == '\U{00A0}' || c == '\U{1680}'
    || ('\U{2000}' <= c <= '\U{200A}')
    || c == '\U{2028}' || c == '\U{2029}' || c == '\U{202F}' || c == '\U{205F}'
    || c == '\U{3000}' || c == '\U{FEFF}'
  }

  /** The number of white-space characters `s` starts with. */
  function LeadingSpace(s: string): (n: nat)
    ensures n <= |s|
    ensures forall i :: 0 <= i < n ==> IsJsWhitespace(s[i])
    ensures n == |s| || !IsJsWhitespace(s[n])
    decreases |s|
  {
    if s != [] && IsJsWhitespace(s[0]) then 1 + LeadingSpace(s[1..]) else 0
  }

  /** The number of white-space characters `s` ends with. */
  function TrailingSpace(s: string): (n: nat)
    ensures n <= |s|
    ensures forall i :: |s| - n <= i < |s| ==> IsJsWhitespace(s[i])
    ensures n == |s| || !IsJsWhitespace(s[|s| - n - 1])
    decreases |s|
  {
    if s != [] && IsJsWhitespace(s[|s| - 1]) then 1 + TrailingSpace(s[..|s| - 1]) else 0
  }

  /** `String.prototype.trim`: drops the leading, then the trailing white space. */
  function Trim(s: string): string {
    var t := s[LeadingSpace(s)..];
    t[..|t| - TrailingSpace(t)]
  }

  /** `trim` removes white space only: its result is the slice `s[i..j]` of the input,
      everything before `i` and from `j` on is white space, and the result neither
      starts nor ends with white space. */
  lemma TrimIsSlice(s: string) returns (i: int, j: int)
    ensures 0 <= i <= j <= |s| && Trim(s) == s[i..j]
    ensures forall k :: 0 <= k < i ==> IsJsWhitespace(s[k])
    ensures forall k :: j <= k < |s| ==> IsJsWhitespace(s[k])
    ensures var r := Trim(s); r == [] || (!IsJsWhitespace(r[0]) && !IsJsWhitespace(r[|r| - 1]))
  {
    i := LeadingSpace(s);
    var t := s[i..];
    var n := TrailingSpace(t);
    j := |s| - n;
    assert Trim(s) == t[..|t| - n];
    assert t[..|t| - n] == s[i..j];
    forall k | j <= k < |s| ensures IsJsWhitespace(s[k]) {
      assert s[k] == t[k - i];
    }
  }
}
