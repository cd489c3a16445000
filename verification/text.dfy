/** Character classes and string operations of JavaScript that the handlers rely on. */
module Text {
  import opened Wrappers

  predicate IsAsciiLetter(c: char) {
    'a' <= c <= 'z' || 'A' <= c <= 'Z'
  }

  predicate IsDigit(c: char) {
    '0' <= c <= '9'
  }

  /** `\w` in a regular expression without the `u` flag: ASCII letters, digits and underscore. */
  predicate IsWordChar(c: char) {
    IsAsciiLetter(c) || IsDigit(c) || c == '_'
  }

  /** `\s` in a regular expression; also exactly the characters `String.prototype.trim` removes
      (WhiteSpace and LineTerminator of ECMA-262). */
  predicate IsJsSpace(c: char) {
    || c == '\t' || c == '\n' || c == '\U{000B}' || c == '\U{000C}' || c == '\r'
    || c == ' ' || c == '\U{00A0}' || c == '\U{1680}'
    || ('\U{2000}' <= c <= '\U{200A}')
    || c == '\U{2028}' || c == '\U{2029}' || c == '\U{202F}' || c == '\U{205F}'
    || c == '\U{3000}' || c == '\U{FEFF}'
  }

  /** The characters `.` does not match in a regular expression without the `s` flag. */
  predicate IsLineTerminator(c: char) {
    c == '\n' || c == '\r' || c == '\U{2028}' || c == '\U{2029}'
  }

  /** JavaScript truthiness of an optional string: present and non-empty. */
  predicate IsTruthy(s: Option<string>) {
    s.Some? && s.value != ""
  }

  /** `a || b` for an optional string `a` and a string `b`. */
  function OrElse(a: Option<string>, b: string): (r: string)
    ensures IsTruthy(a) ==> r == a.value
    ensures !IsTruthy(a) ==> r == b
  {
    if IsTruthy(a) then a.value else b
  }

  /** `t` occurs in `s` starting at index `i`. */
  predicate HasAt(s: string, i: nat, t: string) {
    i + |t| <= |s| && s[i..i + |t|] == t
  }

  /** The first index at or after `i` where `t` occurs in `s`. */
  function IndexFrom(s: string, t: string, i: nat): (r: Option<nat>)
    ensures r.Some? ==> i <= r.value && HasAt(s, r.value, t)
    ensures r.Some? ==> forall j: nat :: i <= j < r.value ==> !HasAt(s, j, t)
    ensures r.None? ==> forall j: nat :: i <= j ==> !HasAt(s, j, t)
    decreases |s| - i
  {
    if i + |t| > |s| then None
    else if HasAt(s, i, t) then Some(i)
    else IndexFrom(s, t, i + 1)
  }

  /** `String.prototype.includes`. */
  function Contains(s: string, t: string): (r: bool)
    ensures r <==> exists i: nat :: HasAt(s, i, t)
  {
    IndexFrom(s, t, 0).Some?
  }

  /** `String.prototype.replace` with a string pattern and a replacement without `$`:
      only the first occurrence of `pat` is replaced. */
  function ReplaceFirst(s: string, pat: string, rep: string): (r: string)
    ensures (forall j: nat :: !HasAt(s, j, pat)) ==> r == s
    ensures forall i: nat :: HasAt(s, i, pat) && (forall j: nat :: j < i ==> !HasAt(s, j, pat)) ==>
              r == s[..i] + rep + s[i + |pat|..]
  {
    match IndexFrom(s, pat, 0)
    case None => s
    case Some(i) =>
      assert forall k: nat :: HasAt(s, k, pat) && (forall j: nat :: j < k ==> !HasAt(s, j, pat)) ==> k == i;
      s[..i] + rep + s[i + |pat|..]
  }

  /** The characters of `s` that satisfy `keep`, in order. */
  function Keep(s: string, keep: char -> bool): (r: string)
    ensures |r| <= |s|
    ensures forall i :: 0 <= i < |r| ==> keep(r[i]) && r[i] in s
    ensures (forall i :: 0 <= i < |s| ==> keep(s[i])) ==> r == s
  {
    if |s| == 0 then ""
    else if keep(s[0]) then [s[0]] + Keep(s[1..], keep)
    else Keep(s[1..], keep)
  }

  /** Keeping distributes over concatenation, so `Keep` preserves the order of what it keeps. */
  lemma {:induction false} KeepConcat(a: string, b: string, keep: char -> bool)
    ensures Keep(a + b, keep) == Keep(a, keep) + Keep(b, keep)
    decreases |a|
  {
    if |a| == 0 {
      assert a + b == b;
    } else {
      assert (a + b)[1..] == a[1..] + b;
      KeepConcat(a[1..], b, keep);
    }
  }

  /** How many white-space characters `s` starts with. */
  function LeadingSpaces(s: string): (a: nat)
    ensures a <= |s|
    ensures forall i :: 0 <= i < a ==> IsJsSpace(s[i])
    ensures a < |s| ==> !IsJsSpace(s[a])
  {
    if |s| > 0 && IsJsSpace(s[0]) then
      var a := 1 + LeadingSpaces(s[1..]);
      assert forall i :: 1 <= i < a ==> s[i] == s[1..][i - 1];
      a
    else 0
  }

  /** Where the trailing white space of `s` begins. */
  function TrailingStart(s: string): (b: nat)
    ensures b <= |s|
    ensures forall i :: b <= i < |s| ==> IsJsSpace(s[i])
    ensures b > 0 ==> !IsJsSpace(s[b - 1])
  {
    if |s| > 0 && IsJsSpace(s[|s| - 1]) then TrailingStart(s[..|s| - 1]) else |s|
  }

  /** `String.prototype.trim`: the slice of `s` between its leading and its trailing white
      space, or `''` when `s` is all white space. */
  function Trim(s: string): (r: string)
    ensures LeadingSpaces(s) == |s| ==> r == ""
    ensures LeadingSpaces(s) < |s| ==> LeadingSpaces(s) < TrailingStart(s) && r == s[LeadingSpaces(s)..TrailingStart(s)]
    ensures |r| == 0 || (!IsJsSpace(r[0]) && !IsJsSpace(r[|r| - 1]))
    ensures forall c :: c in r ==> c in s
    ensures (|s| == 0 || (!IsJsSpace(s[0]) && !IsJsSpace(s[|s| - 1]))) ==> r == s
  {
    var a := LeadingSpaces(s);
    if a == |s| then ""
    else
      var b := TrailingStart(s);
      assert !IsJsSpace(s[a]);
      s[a..b]
  }
}
