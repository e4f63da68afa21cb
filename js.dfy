/**
 * JavaScript value helpers shared by the three event modules: optional
 * properties (undefined / null / a value), truthiness of strings, and the
 * handful of String.prototype operations the sources rely on (indexOf as a
 * containment test, substring with clamping, trimRight, toLowerCase).
 */
module Js {

  datatype Option<+T> = None | Some(value: T)

  /** A property of a parsed JSON record: missing, explicitly null, or present. */
  datatype Field<+T> = Undefined | Null | Val(value: T)

  /** `if (s)` on a string-valued property: present and non-empty. */
  predicate Truthy(f: Field<string>) {
    f.Val? && f.value != ""
  }

  /** `s || ''` */
  function OrEmpty(f: Field<string>): (r: string)
    ensures Truthy(f) ==> r == f.value
    ensures !Truthy(f) ==> r == ""
  {
    if f.Val? then f.value else ""
  }

  /** An element of `[...].join('')`: undefined and null become the empty string. */
  function JoinPart(f: Field<string>): (r: string)
    ensures f.Val? ==> r == f.value
    ensures !f.Val? ==> r == ""
  {
    match f
    case Val(s) => s
    case _ => ""
  }

  /** The string that `'' + x` produces for a string-valued property. */
  function Stringify(f: Field<string>): string {
    match f
    case Undefined => "undefined"
    case Null => "null"
    case Val(s) => s
  }

  predicate OccursAt(s: string, sub: string, i: nat) {
    i + |sub| <= |s| && s[i..i + |sub|] == sub
  }

  /** `s.indexOf(sub) !== -1` */
  predicate Contains(s: string, sub: string) {
    exists i: nat | i <= |s| :: OccursAt(s, sub, i)
  }

  lemma ContainsPrefix(s: string, t: string)
    ensures Contains(s + t, s)
  {
    assert OccursAt(s + t, s, 0) by { assert (s + t)[..|s|] == s; }
  }

  lemma ContainsSuffix(s: string, t: string)
    ensures Contains(s + t, t)
  {
    assert OccursAt(s + t, t, |s|) by { assert (s + t)[|s|..|s| + |t|] == t; }
  }

  lemma ContainsGrows(s: string, t: string, sub: string)
    requires Contains(s, sub)
    ensures Contains(s + t, sub)
  {
    var i: nat :| i <= |s| && OccursAt(s, sub, i);
    assert OccursAt(s + t, sub, i) by { assert (s + t)[i..i + |sub|] == s[i..i + |sub|]; }
  }

  /** An occurrence inside an occurrence is an occurrence. */
  lemma ContainsTrans(s: string, t: string, u: string)
    requires Contains(s, t) && Contains(t, u)
    ensures Contains(s, u)
  {
    var i: nat :| i <= |s| && OccursAt(s, t, i);
    var j: nat :| j <= |t| && OccursAt(t, u, j);
    assert OccursAt(s, u, i + j) by {
      assert forall m | 0 <= m < |t| :: t[m] == s[i + m];
      assert s[i + j..i + j + |u|] == t[j..j + |u|];
    }
  }

  /** `s.substring(from, to)`: both ends clamped to the length, swapped when reversed. */
  function JsSubstring(s: string, from: nat, to: nat): (r: string)
    ensures from <= to <= |s| ==> r == s[from..to]
    ensures |s| <= from && |s| <= to ==> r == ""
    ensures from <= to ==> |r| <= to - from
  {
    var a := if from < |s| then from else |s|;
    var b := if to < |s| then to else |s|;
    if a <= b then s[a..b] else s[b..a]
  }

  /** The characters String.prototype.trimRight removes (white space and line terminators). */
  predicate IsJsWhitespace(c: char) {
    || c == ' ' || c == '\t' || c == '\n' || c == '\r'
    || c == '\U{000B}' || c == '\U{000C}' || c == '\U{00A0}' || c == '\U{1680}'
    || ('\U{2000}' <= c <= '\U{200A}')
    || c == '\U{2028}' || c == '\U{2029}' || c == '\U{202F}' || c == '\U{205F}'
    || c == '\U{3000}' || c == '\U{FEFF}'
  }

  /** `s.trimRight()`: drops white space from the end. */
  function TrimRight(s: string): string
    decreases |s|
  {
    if s == [] || !IsJsWhitespace(s[|s| - 1]) then s else TrimRight(s[..|s| - 1])
  }

  /** The trimmed string is the longest prefix of `s` that does not end in white space. */
  lemma {:induction false} TrimRightShape(s: string)
    ensures TrimRight(s) <= s
    ensures TrimRight(s) == [] || !IsJsWhitespace(TrimRight(s)[|TrimRight(s)| - 1])
    ensures forall i | |TrimRight(s)| <= i < |s| :: IsJsWhitespace(s[i])
    decreases |s|
  {
    if s != [] && IsJsWhitespace(s[|s| - 1]) {
      TrimRightShape(s[..|s| - 1]);
    }
  }

  function LowerChar(c: char): char {
    if 'A' <= c <= 'Z' then (c as int + 32) as char else c
  }

  /** `s.toLowerCase()` on the ASCII letters. */
  function ToLower(s: string): (r: string)
    ensures |r| == |s|
    ensures forall i | 0 <= i < |s| :: r[i] == LowerChar(s[i])
  {
    seq(|s|, i requires 0 <= i < |s| => LowerChar(s[i]))
  }
}
