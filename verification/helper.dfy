/** The string and arithmetic helpers of `utils/helper.js` other than the two URL recognisers:
    `formatDuration`, `sanitizeString` and `validateParams`. */
module Helper {
  import opened Wrappers
  import opened Text
  import opened Decimal

  // ---------------------------------------------------------------------------------------
  // formatDuration
  // ---------------------------------------------------------------------------------------

  /** `formatDuration`. An absent (falsy) input and 0 both give `0:00`; from one hour on the
      minutes and seconds are padded to two digits, below it only the seconds are. */
  function FormatDuration(seconds: Option<nat>): (r: string)
    ensures seconds.None? || seconds.value == 0 ==> r == "0:00"
  {
    if seconds.None? || seconds.value == 0 then "0:00"
    else
      var n := seconds.value;
      Clock(n / 3600, (n % 3600) / 60, n % 60)
  }

  /** The clock text of whole hours, minutes and seconds: `H:MM:SS` when there are hours,
      `M:SS` otherwise. */
  function Clock(hrs: nat, mins: nat, secs: nat): string
    requires mins < 60 && secs < 60
  {
    if hrs > 0 then NatToString(hrs) + ":" + Pad2(mins) + ":" + Pad2(secs)
    else NatToString(mins) + ":" + Pad2(secs)
  }

  /** `s.split(sep)`. */
  function SplitOn(s: string, sep: char): (parts: seq<string>)
    ensures |parts| >= 1
  {
    if |s| == 0 then [""]
    else
      var rest := SplitOn(s[1..], sep);
      if s[0] == sep then [""] + rest else [[s[0]] + rest[0]] + rest[1..]
  }

  lemma {:induction false} SplitOnField(a: string, sep: char)
    requires sep !in a
    ensures SplitOn(a, sep) == [a]
    decreases |a|
  {
    if |a| > 0 {
      SplitOnField(a[1..], sep);
      assert [a[0]] + a[1..] == a;
    }
  }

  lemma {:induction false} SplitOnJoin(a: string, sep: char, b: string)
    requires sep !in a
    ensures SplitOn(a + [sep] + b, sep) == [a] + SplitOn(b, sep)
    decreases |a|
  {
    var s := a + [sep] + b;
    if |a| == 0 {
      assert s[1..] == b;
    } else {
      assert s[1..] == a[1..] + [sep] + b;
      SplitOnJoin(a[1..], sep, b);
      assert [a[0]] + a[1..] == a;
    }
  }

  predicate IsNumeral(s: string) {
    |s| > 0 && AllDigits(s)
  }

  /** Reads an `M:SS` or `H:MM:SS` clock back as a number of seconds. */
  function ParseClock(str: string): Option<nat> {
    var parts := SplitOn(str, ':');
    if |parts| == 2 && IsNumeral(parts[0]) && IsNumeral(parts[1]) then
      Some(DigitsValue(parts[0]) * 60 + DigitsValue(parts[1]))
    else if |parts| == 3 && IsNumeral(parts[0]) && IsNumeral(parts[1]) && IsNumeral(parts[2]) then
      Some(DigitsValue(parts[0]) * 3600 + DigitsValue(parts[1]) * 60 + DigitsValue(parts[2]))
    else None
  }

  lemma NoColonInDigits(s: string)
    requires AllDigits(s)
    ensures ':' !in s
  {
  }

  /** The fields `formatDuration` splits a count of seconds into. */
  lemma ClockArithmetic(n: nat)
    ensures (n % 3600) / 60 < 60 && n % 60 < 60
    ensures n == (n / 3600) * 3600 + ((n % 3600) / 60) * 60 + n % 60
    ensures n / 3600 > 0 <==> n >= 3600
  {
    var q, r := n / 3600, n % 3600;
    assert n == q * 3600 + r;
    assert r == (r / 60) * 60 + r % 60;
    assert n == (q * 60 + r / 60) * 60 + r % 60;
    assert n % 60 == r % 60;
  }

  /** Every duration renders as the clock of its fields; zero as the clock `0:00`. */
  lemma FormatDurationClock(n: nat)
    ensures (n % 3600) / 60 < 60 && n % 60 < 60
    ensures FormatDuration(Some(n)) == Clock(n / 3600, (n % 3600) / 60, n % 60)
  {
    ClockArithmetic(n);
    if n == 0 {
      assert NatToString(0) == "0" && Pad2(0) == "00";
    }
  }

  /** The pieces of a clock, split at `:`. */
  lemma ClockParts(hrs: nat, mins: nat, secs: nat)
    requires mins < 60 && secs < 60
    ensures var parts := SplitOn(Clock(hrs, mins, secs), ':');
            && (hrs > 0 ==> parts == [NatToString(hrs), Pad2(mins), Pad2(secs)])
            && (hrs == 0 ==> parts == [NatToString(mins), Pad2(secs)])
  {
    var pm, ps := Pad2(mins), Pad2(secs);
    NoColonInDigits(pm);
    NoColonInDigits(ps);
    SplitOnField(ps, ':');
    SplitOnJoin(pm, ':', ps);
    if hrs > 0 {
      var h := NatToString(hrs);
      NoColonInDigits(h);
      assert Clock(hrs, mins, secs) == h + [':'] + (pm + [':'] + ps);
      SplitOnJoin(h, ':', pm + [':'] + ps);
    } else {
      var m := NatToString(mins);
      NoColonInDigits(m);
      assert Clock(hrs, mins, secs) == m + [':'] + ps;
      SplitOnJoin(m, ':', ps);
    }
  }

  /** A clock has three numeral fields when there are hours and two otherwise; the fields after
      the first are two digits below 60, and the first has no leading zero. */
  lemma ClockShape(hrs: nat, mins: nat, secs: nat)
    requires mins < 60 && secs < 60
    ensures var parts := SplitOn(Clock(hrs, mins, secs), ':');
            && (|parts| == 3 <==> hrs > 0)
            && (|parts| == 2 <==> hrs == 0)
            && (forall i :: 0 <= i < |parts| ==> IsNumeral(parts[i]))
            && (forall i :: 1 <= i < |parts| ==> |parts[i]| == 2 && DigitsValue(parts[i]) < 60)
            && (hrs == 0 ==> DigitsValue(parts[0]) < 60)
            && parts[0] == NatToString(DigitsValue(parts[0]))
  {
    ClockParts(hrs, mins, secs);
    NatToStringRoundTrip(hrs);
    NatToStringRoundTrip(mins);
  }

  /** Reading a clock's fields back gives its hours, minutes and seconds. */
  lemma ClockRoundTrip(hrs: nat, mins: nat, secs: nat)
    requires mins < 60 && secs < 60
    ensures ParseClock(Clock(hrs, mins, secs)) == Some(hrs * 3600 + mins * 60 + secs)
  {
    var parts := SplitOn(Clock(hrs, mins, secs), ':');
    ClockParts(hrs, mins, secs);
    if hrs > 0 {
      NatToStringRoundTrip(hrs);
      assert IsNumeral(parts[0]) && IsNumeral(parts[1]) && IsNumeral(parts[2]);
      assert DigitsValue(parts[0]) == hrs && DigitsValue(parts[1]) == mins && DigitsValue(parts[2]) == secs;
    } else {
      NatToStringRoundTrip(mins);
      assert IsNumeral(parts[0]) && IsNumeral(parts[1]);
      assert DigitsValue(parts[0]) == mins && DigitsValue(parts[1]) == secs;
    }
  }

  /** The shape of `formatDuration`: `H:MM:SS` exactly from one hour on, with minutes and
      seconds two digits below 60 and the hours unpadded; otherwise `M:SS` with unpadded minutes
      below 60 and two-digit seconds below 60. */
  lemma FormatDurationShape(n: nat)
    ensures var parts := SplitOn(FormatDuration(Some(n)), ':');
            && (|parts| == 3 <==> n >= 3600)
            && (|parts| == 2 <==> n < 3600)
            && (forall i :: 0 <= i < |parts| ==> IsNumeral(parts[i]))
            && (forall i :: 1 <= i < |parts| ==> |parts[i]| == 2 && DigitsValue(parts[i]) < 60)
            && (n < 3600 ==> DigitsValue(parts[0]) < 60)
            && parts[0] == NatToString(DigitsValue(parts[0]))
  {
    var hrs, mins, secs := n / 3600, (n % 3600) / 60, n % 60;
    assert hrs > 0 <==> n >= 3600 by {
      ClockArithmetic(n);
    }
    FormatDurationClock(n);
    ClockShape(hrs, mins, secs);
  }

  /** Reading the hours, minutes and seconds back out of `formatDuration(n)` gives `n`. */
  lemma FormatDurationRoundTrip(n: nat)
    ensures ParseClock(FormatDuration(Some(n))) == Some(n)
  {
    var hrs, mins, secs := n / 3600, (n % 3600) / 60, n % 60;
    assert n == hrs * 3600 + mins * 60 + secs by {
      ClockArithmetic(n);
    }
    FormatDurationClock(n);
    ClockRoundTrip(hrs, mins, secs);
  }

  // ---------------------------------------------------------------------------------------
  // sanitizeString
  // ---------------------------------------------------------------------------------------

  /** Character `c` matches pattern character `p` under the `i` flag without `u`: only ASCII
      letters fold. Pattern characters are lower case. */
  predicate CiMatches(c: char, p: char) {
    c == p || ('a' <= p <= 'z' && c as int == p as int - 32)
  }

  /** `t` occurs at `i`, ignoring ASCII case. */
  predicate HasCiAt(s: string, i: nat, t: string) {
    i + |t| <= |s| && forall k :: 0 <= k < |t| ==> CiMatches(s[i + k], t[k])
  }

  /** The first `</script>` (in any case) at or after `i`. */
  function CloseTagFrom(s: string, i: nat): (j: Option<nat>)
    ensures j.Some? ==> i <= j.value && HasCiAt(s, j.value, "</script>")
    ensures j.Some? ==> forall k: nat :: i <= k < j.value ==> !HasCiAt(s, k, "</script>")
    ensures j.None? ==> forall k: nat :: i <= k ==> !HasCiAt(s, k, "</script>")
    decreases |s| - i
  {
    if i + 9 > |s| then None
    else if HasCiAt(s, i, "</script>") then Some(i)
    else CloseTagFrom(s, i + 1)
  }

  /** Where a script block that starts at the head of `s` ends:
      `<script\b[^<]*(?:(?!<\/script>)<[^<]*)*<\/script>` under the `i` flag matches from
      `<script` followed by a word boundary up to and including the first `</script>`. */
  function ScriptBlockEnd(s: string): (e: Option<nat>)
    ensures e.Some? ==> 0 < e.value <= |s|
    ensures e.Some? ==> s[0] == '<'
  {
    if HasCiAt(s, 0, "<script") && (|s| == 7 || !IsWordChar(s[7])) then
      assert CiMatches(s[0], "<script"[0]);
      match CloseTagFrom(s, 7)
      case None => None
      case Some(j) => Some(j + 9)
    else None
  }

  /** The global replacement of script blocks by nothing, scanning left to right. */
  function StripScripts(s: string): (r: string)
    ensures |r| <= |s|
    ensures forall i :: 0 <= i < |r| ==> r[i] in s
    ensures '<' !in s ==> r == s
    decreases |s|
  {
    if |s| == 0 then ""
    else
      match ScriptBlockEnd(s)
      case Some(e) =>
        var r := StripScripts(s[e..]);
        assert forall i :: 0 <= i < |r| ==> r[i] in s[e..];
        r
      case None =>
        var r := [s[0]] + StripScripts(s[1..]);
        assert forall i :: 1 <= i < |r| ==> r[i] in s[1..];
        r
  }

  predicate IsBracket(c: char) {
    c == '<' || c == '>'
  }

  /** `.replace(/[<>]/g, '')`. */
  function StripBrackets(s: string): (r: string)
    ensures forall i :: 0 <= i < |r| ==> !IsBracket(r[i])
  {
    Keep(s, c => !IsBracket(c))
  }

  /** A string whose every character occurs in `s` holds no character outside `s`. */
  lemma CharsWithin(r: string, s: string)
    requires forall i :: 0 <= i < |r| ==> r[i] in s
    ensures forall c :: c in r ==> c in s
  {
    forall c | c in r
      ensures c in s
    {
      var i :| 0 <= i < |r| && r[i] == c;
    }
  }

  /** Text without angle brackets passes the bracket filter unchanged. */
  lemma BracketFreeKept(s: string)
    ensures '<' !in s && '>' !in s ==> StripBrackets(s) == s
  {
    if '<' !in s && '>' !in s {
      assert forall i :: 0 <= i < |s| ==> !IsBracket(s[i]);
    }
  }

  /** `sanitizeString`: '' for a falsy input; otherwise script blocks removed, then angle
      brackets, then surrounding white space. */
  function SanitizeString(str: Option<string>): (r: string)
    ensures !IsTruthy(str) ==> r == ""
    ensures forall i :: 0 <= i < |r| ==> !IsBracket(r[i])
    ensures |r| == 0 || (!IsJsSpace(r[0]) && !IsJsSpace(r[|r| - 1]))
    ensures IsTruthy(str) ==> forall c :: c in r ==> c in str.value
    ensures IsTruthy(str) && '<' !in str.value && '>' !in str.value ==> r == Trim(str.value)
  {
    if !IsTruthy(str) then ""
    else
      var s := StripScripts(str.value);
      var t := StripBrackets(s);
      CharsWithin(s, str.value);
      CharsWithin(t, s);
      BracketFreeKept(str.value);
      Trim(t)
  }

  /** Sanitising twice is sanitising once. */
  lemma SanitizeIdempotent(str: Option<string>)
    ensures SanitizeString(Some(SanitizeString(str))) == SanitizeString(str)
  {
    var r := SanitizeString(str);
    if r != "" {
      assert '<' !in r;
      assert StripScripts(r) == r;
      assert StripBrackets(r) == r;
    }
  }

  // ---------------------------------------------------------------------------------------
  // validateParams
  // ---------------------------------------------------------------------------------------

  /** A JavaScript value as far as truthiness goes. */
  datatype JsValue = Undefined | Null | Bool(b: bool) | Number(n: int) | NaN | Str(s: string) | Object

  predicate Truthy(v: JsValue) {
    match v
    case Undefined => false
    case Null => false
    case Bool(b) => b
    case Number(n) => n != 0
    case NaN => false
    case Str(s) => s != ""
    case Object => true
  }

  /** The properties an ordinary object inherits from `Object.prototype`. Every one of them is
      a function, or for `__proto__` the prototype object itself, so each reads as truthy. */
  const InheritedKeys: set<string> := {
    "constructor", "hasOwnProperty", "isPrototypeOf", "propertyIsEnumerable", "toLocaleString",
    "toString", "valueOf", "__proto__", "__defineGetter__", "__defineSetter__",
    "__lookupGetter__", "__lookupSetter__"
  }

  /** `params[key]` is truthy for an ordinary object `params`: an own property is read as it
      is; otherwise the lookup falls through to `Object.prototype`, and a key found nowhere
      reads as `undefined`. */
  predicate Supplied(params: map<string, JsValue>, key: string) {
    if key in params then Truthy(params[key]) else key in InheritedKeys
  }

  datatype ParamCheck = ParamCheck(isValid: bool, missing: seq<string>)

  /** `required.filter(param => !params[param])`. */
  function MissingKeys(params: map<string, JsValue>, required: seq<string>): (m: seq<string>)
    ensures |m| <= |required|
    ensures forall k :: k in m <==> k in required && !Supplied(params, k)
    ensures forall k :: k in m && k !in params ==> k !in InheritedKeys
  {
    if |required| == 0 then []
    else
      var rest := MissingKeys(params, required[1..]);
      assert forall k :: k in required <==> k == required[0] || k in required[1..];
      if Supplied(params, required[0]) then rest else [required[0]] + rest
  }

  /** Missing keys are reported in the order they are required: the filter distributes over
      concatenation. */
  lemma {:induction false} MissingKeysConcat(params: map<string, JsValue>, a: seq<string>, b: seq<string>)
    ensures MissingKeys(params, a + b) == MissingKeys(params, a) + MissingKeys(params, b)
    decreases |a|
  {
    if |a| == 0 {
      assert a + b == b;
    } else {
      assert (a + b)[0] == a[0] && (a + b)[1..] == a[1..] + b;
      MissingKeysConcat(params, a[1..], b);
    }
  }

  /** `validateParams`: `missing` holds exactly the required keys that are absent or falsy,
      and the check is valid exactly when there are none. */
  function ValidateParams(params: map<string, JsValue>, required: seq<string>): (r: ParamCheck)
    ensures forall k :: k in r.missing <==> k in required && !Supplied(params, k)
    ensures r.isValid <==> forall k :: k in required ==> Supplied(params, k)
    ensures r.isValid <==> |r.missing| == 0
    ensures r.missing == MissingKeys(params, required)
  {
    var missing := MissingKeys(params, required);
    assert |missing| > 0 ==> missing[0] in missing;
    ParamCheck(|missing| == 0, missing)
  }
}
