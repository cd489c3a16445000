/** The two URL recognisers of the helper module: the anchored validator `validateYouTubeUrl`
    and the unanchored id extractor `getVideoId`. Each regular expression is hand-coded with the
    backtracking order of JavaScript's engine. */
module Urls {
  import opened Wrappers
  import opened Text

  // ---------------------------------------------------------------------------------------
  // validateYouTubeUrl:  ^(https?://)?(www\.)?(youtube\.com/(watch\?v=|embed/|v/)|youtu\.be/)
  //                      [\w-]{11}(&[\w=]*)?$
  // ---------------------------------------------------------------------------------------

  datatype Scheme = NoScheme | Http | Https
  datatype Route = Watch | Embed | V | Short

  /** One parse of a URL the validator accepts. `tail == Some(t)` stands for the suffix `"&" + t`. */
  datatype UrlParts = UrlParts(scheme: Scheme, www: bool, route: Route, id: string, tail: Option<string>)

  /** `[\w-]`: the characters of an accepted video id. */
  predicate IsIdChar(c: char) {
    IsWordChar(c) || c == '-'
  }

  /** `[\w=]`: the characters allowed after the `&`. */
  predicate IsTailChar(c: char) {
    IsWordChar(c) || c == '='
  }

  predicate IsVideoId(id: string) {
    |id| == 11 && forall i :: 0 <= i < |id| ==> IsIdChar(id[i])
  }

  predicate IsTail(t: string) {
    forall i :: 0 <= i < |t| ==> IsTailChar(t[i])
  }

  predicate WellFormed(p: UrlParts) {
    IsVideoId(p.id) && (p.tail.Some? ==> IsTail(p.tail.value))
  }

  function SchemeText(s: Scheme): string {
    match s
    case NoScheme => ""
    case Http => "http://"
    case Https => "https://"
  }

  function WwwText(www: bool): string {
    if www then "www." else ""
  }

  function RouteText(r: Route): string {
    match r
    case Watch => "youtube.com/watch?v="
    case Embed => "youtube.com/embed/"
    case V => "youtube.com/v/"
    case Short => "youtu.be/"
  }

  function TailText(t: Option<string>): string {
    match t
    case None => ""
    case Some(x) => "&" + x
  }

  /** The URL a parse stands for. */
  function Render(p: UrlParts): string {
    SchemeText(p.scheme) + WwwText(p.www) + RouteText(p.route) + p.id + TailText(p.tail)
  }

  predicate StartsWith(s: string, t: string) {
    |t| <= |s| && s[..|t|] == t
  }

  /** Reads the optional scheme. */
  function ParseScheme(s: string): (r: Scheme)
    ensures StartsWith(s, SchemeText(r))
  {
    if StartsWith(s, "https://") then Https
    else if StartsWith(s, "http://") then Http
    else NoScheme
  }

  function ParseRoute(s: string): (r: Option<Route>)
    ensures r.Some? ==> StartsWith(s, RouteText(r.value))
  {
    if StartsWith(s, "youtube.com/watch?v=") then Some(Watch)
    else if StartsWith(s, "youtube.com/embed/") then Some(Embed)
    else if StartsWith(s, "youtube.com/v/") then Some(V)
    else if StartsWith(s, "youtu.be/") then Some(Short)
    else None
  }

  /** What may follow the id: nothing, or `&` and tail characters. */
  function ParseTail(s: string): (r: Option<Option<string>>)
    ensures r.Some? ==> TailText(r.value) == s && (r.value.Some? ==> IsTail(r.value.value))
  {
    if |s| == 0 then Some(None)
    else if s[0] == '&' && IsTail(s[1..]) then
      assert s == "&" + s[1..];
      Some(Some(s[1..]))
    else None
  }

  /** The parse of `s`, when the validator's pattern matches it. Every group of the pattern
      is decided by its first character, so reading left to right finds the only parse. */
  function ParseUrl(s: string): Option<UrlParts> {
    var scheme := ParseScheme(s);
    var s1 := s[|SchemeText(scheme)|..];
    var www := StartsWith(s1, "www.");
    var s2 := s1[|WwwText(www)|..];
    match ParseRoute(s2)
    case None => None
    case Some(route) =>
      var s3 := s2[|RouteText(route)|..];
      if |s3| < 11 || !IsVideoId(s3[..11]) then None
      else
        match ParseTail(s3[11..])
        case None => None
        case Some(tail) => Some(UrlParts(scheme, www, route, s3[..11], tail))
  }

  /** A string that starts with `t` is `t` followed by the rest. */
  lemma Peel(s: string, t: string)
    requires StartsWith(s, t)
    ensures s == t + s[|t|..]
  {
    assert s == s[..|t|] + s[|t|..];
  }

  /** Peeling three prefixes off a string and splitting what is left puts it back together. */
  lemma Compose(s: string, s1: string, s2: string, s3: string,
                u: string, v: string, w: string, id: string, tt: string)
    requires StartsWith(s, u) && s1 == s[|u|..]
    requires StartsWith(s1, v) && s2 == s1[|v|..]
    requires StartsWith(s2, w) && s3 == s2[|w|..]
    requires s3 == id + tt
    ensures s == u + v + w + id + tt
  {
    Peel(s, u);
    Peel(s1, v);
    Peel(s2, w);
    Associate(u, v, w, id, tt);
  }

  /** Whatever the parser returns is well formed and renders back to its input. */
  lemma ParseSound(s: string)
    requires ParseUrl(s).Some?
    ensures WellFormed(ParseUrl(s).value)
    ensures Render(ParseUrl(s).value) == s
  {
    var scheme := ParseScheme(s);
    var u := SchemeText(scheme);
    var s1 := s[|u|..];
    var www := StartsWith(s1, "www.");
    var v := WwwText(www);
    var s2 := s1[|v|..];
    var route := ParseRoute(s2).value;
    var w := RouteText(route);
    var s3 := s2[|w|..];
    var id := s3[..11];
    var tail := ParseTail(s3[11..]).value;
    var p := UrlParts(scheme, www, route, id, tail);
    assert ParseUrl(s) == Some(p);
    assert WellFormed(p);
    assert s3 == id + TailText(tail) by {
      assert s3 == s3[..11] + s3[11..];
    }
    assert StartsWith(s1, v);
    Compose(s, s1, s2, s3, u, v, w, id, TailText(tail));
  }

  /** `validateYouTubeUrl`. */
  function ValidateYouTubeUrl(url: string): bool {
    ParseUrl(url).Some?
  }

  /** Reassociates a five-part concatenation the way `Render` writes it. */
  lemma Associate(a: string, b: string, c: string, d: string, e: string)
    ensures a + (b + (c + (d + e))) == a + b + c + d + e
  {
  }

  lemma StartsWithConcat(y: string, z: string, t: string)
    requires |t| <= |y|
    ensures StartsWith(y + z, t) <==> StartsWith(y, t)
  {
    assert (y + z)[..|t|] == y[..|t|];
  }

  lemma ParseSchemeOf(scheme: Scheme, rest: string)
    requires |rest| > 0 && (rest[0] == 'w' || rest[0] == 'y')
    ensures ParseScheme(SchemeText(scheme) + rest) == scheme
  {
    var s := SchemeText(scheme) + rest;
    StartsWithConcat(SchemeText(scheme), rest, SchemeText(scheme));
    if scheme == Http {
      assert s[4] == ':';
    } else if scheme == NoScheme {
      assert s[0] == rest[0];
    }
  }

  lemma ParseWwwOf(www: bool, rest: string)
    requires |rest| > 0 && rest[0] == 'y'
    ensures StartsWith(WwwText(www) + rest, "www.") == www
  {
    if !www {
      assert (WwwText(www) + rest)[0] == 'y';
    } else {
      StartsWithConcat(WwwText(www), rest, "www.");
    }
  }

  lemma ParseRouteOf(route: Route, rest: string)
    ensures ParseRoute(RouteText(route) + rest) == Some(route)
  {
    var y := RouteText(route) + rest;
    StartsWithConcat(RouteText(route), rest, RouteText(route));
    match route {
      case Watch =>
      case Embed => assert y[12] == 'e';
      case V => assert y[12] == 'v';
      case Short => assert y[5] == '.';
    }
  }

  /** The parser's steps, one group at a time, compose into its result. */
  lemma ParseUrlSteps(s: string, s1: string, s2: string, s3: string, p: UrlParts)
    requires ParseScheme(s) == p.scheme && s[|SchemeText(p.scheme)|..] == s1
    requires StartsWith(s1, "www.") == p.www && s1[|WwwText(p.www)|..] == s2
    requires ParseRoute(s2) == Some(p.route) && s2[|RouteText(p.route)|..] == s3
    requires 11 <= |s3| && s3[..11] == p.id && IsVideoId(p.id)
    requires ParseTail(s3[11..]) == Some(p.tail)
    ensures ParseUrl(s) == Some(p)
  {
  }

  /** The scheme and `www.` steps on a rendering whose route comes next. */
  lemma SchemeWwwStep(scheme: Scheme, www: bool, s2: string)
    requires |s2| > 0 && s2[0] == 'y'
    ensures var s1 := WwwText(www) + s2;
            var s := SchemeText(scheme) + s1;
            && ParseScheme(s) == scheme && s[|SchemeText(scheme)|..] == s1
            && StartsWith(s1, "www.") == www && s1[|WwwText(www)|..] == s2
  {
    var s1 := WwwText(www) + s2;
    assert s1[0] == 'w' || s1[0] == 'y';
    ParseSchemeOf(scheme, s1);
    ParseWwwOf(www, s2);
  }

  /** The route step: every route text starts with `y`, and the parser reads it back. */
  lemma RouteStep(route: Route, s3: string)
    ensures var s2 := RouteText(route) + s3;
            && s2[0] == 'y'
            && ParseRoute(s2) == Some(route) && s2[|RouteText(route)|..] == s3
  {
    ParseRouteOf(route, s3);
  }

  /** The id and tail steps. */
  lemma IdTailStep(id: string, tail: Option<string>)
    requires IsVideoId(id) && (tail.Some? ==> IsTail(tail.value))
    ensures var s3 := id + TailText(tail);
            && 11 <= |s3| && s3[..11] == id && ParseTail(s3[11..]) == Some(tail)
  {
    var tt := TailText(tail);
    assert (id + tt)[11..] == tt;
    if tail.Some? {
      assert tt[1..] == tail.value;
    }
  }

  /** The parser recovers every well-formed parse from its rendering: the pattern is unambiguous. */
  lemma ParseRender(p: UrlParts)
    requires WellFormed(p)
    ensures ParseUrl(Render(p)) == Some(p)
  {
    var u, v, w, id, tt := SchemeText(p.scheme), WwwText(p.www), RouteText(p.route), p.id, TailText(p.tail);
    var s3 := id + tt;
    var s2 := w + s3;
    var s1 := v + s2;
    IdTailStep(id, p.tail);
    RouteStep(p.route, s3);
    SchemeWwwStep(p.scheme, p.www, s2);
    Associate(u, v, w, id, tt);
    ParseUrlSteps(u + s1, s1, s2, s3, p);
  }

  /** `validateYouTubeUrl` accepts exactly the renderings of well-formed parses. */
  lemma ValidateExactly(url: string)
    ensures ValidateYouTubeUrl(url) <==> exists p :: WellFormed(p) && Render(p) == url
  {
    if ValidateYouTubeUrl(url) {
      ParseSound(url);
    }
    if exists p :: WellFormed(p) && Render(p) == url {
      var p :| WellFormed(p) && Render(p) == url;
      ParseRender(p);
    }
  }

  // ---------------------------------------------------------------------------------------
  // getVideoId:  (?:youtube\.com/(?:[^/]+/.+/|(?:v|e(?:mbed)?)/|.*[?&]v=)|youtu\.be/)
  //              ([^"&?/\s]{11})          -- unanchored, first match, group 1
  // ---------------------------------------------------------------------------------------

  /** `[^"&?\/\s]`: the characters the extractor accepts in an id. */
  predicate IsExtractChar(c: char) {
    c != '"' && c != '&' && c != '?' && c != '/' && !IsJsSpace(c)
  }

  /** Eleven extractable characters start at `k`. */
  predicate IdAt(s: string, k: nat) {
    k + 11 <= |s| && forall j :: k <= j < k + 11 ==> IsExtractChar(s[j])
  }

  /** The two places where a greedy quantifier of the extractor gives back characters:
      `.+` before a `/` and the id, and `.*` before `[?&]v=` and the id. */
  datatype Anchor = SlashThenId | QueryThenId

  predicate AnchorAt(s: string, r: nat, a: Anchor) {
    match a
    case SlashThenId => r < |s| && s[r] == '/' && IdAt(s, r + 1)
    case QueryThenId =>
      r + 2 < |s| && (s[r] == '?' || s[r] == '&') && s[r + 1] == 'v' && s[r + 2] == '=' && IdAt(s, r + 3)
  }

  /** The largest position in `[lo, hi)` where the anchor fits: a greedy quantifier tries the
      longest run first and backtracks one character at a time. */
  function LastAnchor(s: string, lo: nat, hi: nat, a: Anchor): (r: Option<nat>)
    ensures r.Some? ==> lo <= r.value < hi && AnchorAt(s, r.value, a)
    ensures r.Some? ==> forall k: nat :: r.value < k < hi ==> !AnchorAt(s, k, a)
    ensures r.None? ==> forall k: nat :: lo <= k < hi ==> !AnchorAt(s, k, a)
    decreases hi
  {
    if hi <= lo then None
    else if AnchorAt(s, hi - 1, a) then Some(hi - 1)
    else LastAnchor(s, lo, hi - 1, a)
  }

  /** The end of the run of characters `.` matches from `i` on. */
  function RunEnd(s: string, i: nat): (e: nat)
    requires i <= |s|
    ensures i <= e <= |s| && (e < |s| ==> IsLineTerminator(s[e]))
    ensures forall j :: i <= j < e ==> !IsLineTerminator(s[j])
    decreases |s| - i
  {
    if i == |s| || IsLineTerminator(s[i]) then i else RunEnd(s, i + 1)
  }

  /** The first `/` at or after `i`, or `|s|` when there is none. */
  function NextSlash(s: string, i: nat): (q: nat)
    requires i <= |s|
    ensures i <= q <= |s| && (q < |s| ==> s[q] == '/')
    ensures forall j :: i <= j < q ==> s[j] != '/'
    decreases |s| - i
  {
    if i == |s| || s[i] == '/' then i else NextSlash(s, i + 1)
  }

  /** `[^/]+/.+/` at `p`, then the id: where the id starts. `[^/]+` can only end at the first
      `/`; `.+` is greedy, so the last fitting `/` wins. */
  function PathSegmentsAt(s: string, p: nat): (k: Option<nat>)
    requires p <= |s|
    ensures k.Some? ==> IdAt(s, k.value)
  {
    var q := NextSlash(s, p);
    if q == p || q == |s| then None
    else
      match LastAnchor(s, q + 2, RunEnd(s, q + 1), SlashThenId)
      case None => None
      case Some(r) => Some(r + 1)
  }

  /** `.*[?&]v=` at `p`, then the id: where the id starts. `.*` is greedy, so the last fitting
      `?v=` or `&v=` wins. */
  function QueryAt(s: string, p: nat): (k: Option<nat>)
    requires p <= |s|
    ensures k.Some? ==> IdAt(s, k.value)
  {
    match LastAnchor(s, p, RunEnd(s, p), QueryThenId)
    case None => None
    case Some(r) => Some(r + 3)
  }

  /** The pattern tried at start position `i`, alternatives in the engine's order: where the
      captured id starts. */
  function MatchAt(s: string, i: nat): (k: Option<nat>)
    requires i <= |s|
    ensures k.Some? ==> IdAt(s, k.value)
  {
    if HasAt(s, i, "youtube.com/") then
      var p := i + 12;
      match PathSegmentsAt(s, p)
      case Some(k) => Some(k)
      case None =>
        if HasAt(s, p, "v/") && IdAt(s, p + 2) then Some(p + 2)
        else if HasAt(s, p, "embed/") && IdAt(s, p + 6) then Some(p + 6)
        else if HasAt(s, p, "e/") && IdAt(s, p + 2) then Some(p + 2)
        else QueryAt(s, p)
    else if HasAt(s, i, "youtu.be/") && IdAt(s, i + 9) then Some(i + 9)
    else None
  }

  /** The leftmost start position from `i` on where the pattern matches. */
  function ScanFrom(s: string, i: nat): (k: Option<nat>)
    requires i <= |s|
    ensures k.Some? ==> IdAt(s, k.value)
    decreases |s| - i
  {
    match MatchAt(s, i)
    case Some(k) => Some(k)
    case None => if i == |s| then None else ScanFrom(s, i + 1)
  }

  /** `getVideoId`: the captured group of the first match, or null. */
  function GetVideoId(url: string): (r: Option<string>)
    ensures r.Some? ==> |r.value| == 11
    ensures r.Some? ==> forall i :: 0 <= i < 11 ==> IsExtractChar(r.value[i])
  {
    match ScanFrom(url, 0)
    case None => None
    case Some(k) => Some(url[k..k + 11])
  }

  // ---------------------------------------------------------------------------------------
  // How the extractor reads a URL the validator accepts
  // ---------------------------------------------------------------------------------------

  /** A `&v=` tail carrying eleven more characters, which the greedy `.*[?&]v=` of the
      extractor prefers to the `?v=` of a `watch` URL. */
  predicate HasSecondV(p: UrlParts) {
    p.route == Watch && p.tail.Some? && |p.tail.value| >= 13 && p.tail.value[..2] == "v="
  }

  /** The id the extractor returns for the rendering of `p`. */
  function ExtractedId(p: UrlParts): string
    requires WellFormed(p)
  {
    if HasSecondV(p) then p.tail.value[2..13] else p.id
  }

  /** Where the route text starts: after the optional scheme and `www.`. */
  function RouteStart(p: UrlParts): nat {
    |SchemeText(p.scheme)| + |WwwText(p.www)|
  }

  /** Where the id starts. */
  function IdStart(p: UrlParts): nat {
    RouteStart(p) + |RouteText(p.route)|
  }

  /** A single differing character rules out an occurrence. */
  lemma HasAtChar(s: string, i: nat, t: string, k: nat)
    requires k < |t| && i + k < |s| && s[i + k] != t[k]
    ensures !HasAt(s, i, t)
  {
  }

  lemma HasAtFirst(s: string, i: nat, t: string)
    requires HasAt(s, i, t) && |t| > 0
    ensures s[i] == t[0]
  {
    assert s[i..i + |t|][0] == s[i];
  }

  /** The slices of a five-part concatenation. */
  lemma FivePieces(u: string, v: string, w: string, d: string, e: string)
    ensures var s, h := u + v + w + d + e, |u| + |v|;
            && s[..h] == u + v
            && s[h..h + |w|] == w
            && s[h + |w|..h + |w| + |d|] == d
            && s[h + |w| + |d|..] == e
  {
    var s, h := u + v + w + d + e, |u| + |v|;
    var c := h + |w|;
    assert s[..h] == u + v by {
      assert forall j :: 0 <= j < h ==> s[j] == (u + v)[j];
    }
    assert s[h..c] == w by {
      assert forall j :: 0 <= j < |w| ==> s[h + j] == w[j];
    }
    assert s[c..c + |d|] == d by {
      assert forall j :: 0 <= j < |d| ==> s[c + j] == d[j];
    }
    assert s[c + |d|..] == e by {
      assert forall j :: 0 <= j < |e| ==> s[c + |d| + j] == e[j];
    }
  }

  lemma RenderPieces(p: UrlParts)
    requires WellFormed(p)
    ensures var s, h, c := Render(p), RouteStart(p), IdStart(p);
            && c + 11 <= |s|
            && (forall j :: 0 <= j < h ==> s[j] != 'y')
            && s[h..c] == RouteText(p.route)
            && s[c..c + 11] == p.id
            && s[c + 11..] == TailText(p.tail)
  {
    var s, u, v, w, id, tt := Render(p), SchemeText(p.scheme), WwwText(p.www), RouteText(p.route), p.id, TailText(p.tail);
    var h := |u| + |v|;
    FivePieces(u, v, w, id, tt);
    assert forall j :: 0 <= j < h ==> s[j] != 'y' by {
      assert forall j :: 0 <= j < |u| ==> u[j] != 'y';
      assert forall j :: 0 <= j < |v| ==> v[j] != 'y';
      forall j | 0 <= j < h
        ensures s[j] != 'y'
      {
        assert s[j] == s[..h][j] == (u + v)[j];
      }
    }
  }

  /** From the id on, a rendered URL has no `/`, `?` or line terminator, and its only `&` is
      the one that opens the tail. */
  lemma BodyChars(p: UrlParts)
    requires WellFormed(p)
    ensures var s, c := Render(p), IdStart(p);
            && IdAt(s, c)
            && (forall j :: c <= j < |s| ==> s[j] != '/' && s[j] != '?' && !IsLineTerminator(s[j]))
            && (forall j :: c <= j < |s| && s[j] == '&' ==> j == c + 11)
            && (forall j :: c <= j < |s| && j != c + 11 ==> IsExtractChar(s[j]))
  {
    RenderPieces(p);
    var s, c := Render(p), IdStart(p);
    forall j | c <= j < |s|
      ensures s[j] != '/' && s[j] != '?' && !IsLineTerminator(s[j])
      ensures s[j] == '&' ==> j == c + 11
      ensures j != c + 11 ==> IsExtractChar(s[j])
    {
      if j < c + 11 {
        assert s[j] == p.id[j - c];
        assert IsIdChar(p.id[j - c]);
      } else {
        var t := p.tail.value;
        assert s[c + 11..] == "&" + t;
        assert s[j] == ("&" + t)[j - c - 11];
        if j > c + 11 {
          assert s[j] == t[j - c - 12];
          assert IsTailChar(t[j - c - 12]);
        }
      }
    }
  }

  /** No match can start at a character other than `y`. */
  lemma NoMatchAt(s: string, i: nat)
    requires i < |s| && s[i] != 'y'
    ensures MatchAt(s, i).None?
  {
    if HasAt(s, i, "youtube.com/") {
      HasAtFirst(s, i, "youtube.com/");
    }
    if HasAt(s, i, "youtu.be/") {
      HasAtFirst(s, i, "youtu.be/");
    }
  }

  lemma {:induction false} ScanSkips(s: string, i: nat, h: nat)
    requires i <= h <= |s|
    requires forall j: nat :: i <= j < h ==> MatchAt(s, j).None?
    ensures ScanFrom(s, i) == ScanFrom(s, h)
    decreases h - i
  {
    if i < h {
      ScanSkips(s, i + 1, h);
    }
  }

  /** The characters from the id on, as `BodyChars` describes them for a rendered URL. */
  predicate BodyFrom(s: string, c: nat) {
    && IdAt(s, c)
    && (forall j :: c <= j < |s| ==> s[j] != '/' && s[j] != '?' && !IsLineTerminator(s[j]))
    && (forall j :: c <= j < |s| && s[j] == '&' ==> j == c + 11)
    && (forall j :: c <= j < |s| && j != c + 11 ==> IsExtractChar(s[j]))
  }

  /** `&v=` and eleven more characters right after the id. */
  predicate SecondVAt(s: string, c: nat) {
    c + 25 <= |s| && s[c + 11] == '&' && s[c + 12] == 'v' && s[c + 13] == '='
  }

  lemma WatchQuery(s: string, q0: nat, c: nat)
    requires c == q0 + 8 && BodyFrom(s, c)
    requires s[q0..c] == "watch?v="
    ensures QueryAt(s, q0) == Some(if SecondVAt(s, c) then c + 14 else c)
  {
    assert forall j :: q0 <= j < c ==> s[j] == "watch?v="[j - q0];
    assert RunEnd(s, q0) == |s|;
    assert AnchorAt(s, c - 3, QueryThenId);
    var r := LastAnchor(s, q0, |s|, QueryThenId);
    assert forall k: nat :: c - 3 < k < |s| && k != c + 11 ==> !AnchorAt(s, k, QueryThenId);
    if SecondVAt(s, c) {
      assert AnchorAt(s, c + 11, QueryThenId);
      assert r == Some(c + 11);
    } else {
      assert !AnchorAt(s, c + 11, QueryThenId);
      assert r == Some(c - 3);
    }
  }

  lemma MatchWatchAt(s: string, h: nat)
    requires h + 20 <= |s| && BodyFrom(s, h + 20)
    requires s[h..h + 20] == "youtube.com/watch?v="
    ensures MatchAt(s, h) == Some(if SecondVAt(s, h + 20) then h + 34 else h + 20)
  {
    var q0, c := h + 12, h + 20;
    assert HasAt(s, h, "youtube.com/") by {
      assert s[h..h + 12] == s[h..h + 20][..12];
    }
    assert s[q0..c] == "watch?v=" by {
      assert s[q0..c] == s[h..h + 20][12..];
    }
    assert s[q0] == 'w' by {
      assert s[q0] == s[q0..c][0];
    }
    assert PathSegmentsAt(s, q0).None? by {
      assert forall j :: q0 <= j < |s| ==> s[j] != '/' by {
        forall j | q0 <= j < c
          ensures s[j] != '/'
        {
          assert s[j] == s[q0..c][j - q0];
        }
      }
      assert NextSlash(s, q0) == |s|;
    }
    HasAtChar(s, q0, "v/", 0);
    HasAtChar(s, q0, "embed/", 0);
    HasAtChar(s, q0, "e/", 0);
    WatchQuery(s, q0, c);
  }

  lemma SecondVRendered(p: UrlParts)
    requires WellFormed(p)
    ensures SecondVAt(Render(p), IdStart(p)) <==> (p.tail.Some? && |p.tail.value| >= 13 && p.tail.value[..2] == "v=")
  {
    var s, c := Render(p), IdStart(p);
    RenderPieces(p);
    if p.tail.Some? {
      var t := p.tail.value;
      assert s[c + 11..] == "&" + t;
      assert s[c + 11] == '&';
      if |t| >= 2 {
        assert s[c + 12] == t[0] && s[c + 13] == t[1];
        assert t[..2] == [t[0], t[1]];
      }
    }
  }

  /** An `embed/` URL: `[^/]+/.+/` needs a second `/`, which never comes; `embed/` applies. */
  lemma MatchEmbedAt(s: string, h: nat)
    requires h + 18 <= |s| && BodyFrom(s, h + 18)
    requires s[h..h + 18] == "youtube.com/embed/"
    ensures MatchAt(s, h) == Some(h + 18)
  {
    var q0, c := h + 12, h + 18;
    assert s[h..h + 12] == s[h..h + 18][..12] == "youtube.com/";
    assert s[q0..c] == s[h..h + 18][12..] == "embed/";
    assert s[q0] == 'e' && s[q0 + 1] == 'm' && s[q0 + 2] == 'b' && s[q0 + 3] == 'e' && s[q0 + 4] == 'd';
    assert s[q0 + 5] == '/';
    assert NextSlash(s, q0) == q0 + 5;
    assert RunEnd(s, c) == |s|;
    assert LastAnchor(s, c + 1, |s|, SlashThenId).None?;
    assert s[q0] == 'e';
    assert HasAt(s, q0, "embed/");
  }

  /** A `v/` URL: as for `embed/`, then the `v/` branch applies. */
  lemma MatchVAt(s: string, h: nat)
    requires h + 14 <= |s| && BodyFrom(s, h + 14)
    requires s[h..h + 14] == "youtube.com/v/"
    ensures MatchAt(s, h) == Some(h + 14)
  {
    var q0, c := h + 12, h + 14;
    assert s[h..h + 12] == s[h..h + 14][..12] == "youtube.com/";
    assert s[q0..c] == s[h..h + 14][12..] == "v/";
    assert NextSlash(s, q0) == q0 + 1;
    assert RunEnd(s, c) == |s|;
    assert LastAnchor(s, c + 1, |s|, SlashThenId).None?;
    assert HasAt(s, q0, "v/");
  }

  /** A `youtu.be/` URL: only the second alternative applies. */
  lemma MatchShortAt(s: string, h: nat)
    requires h + 9 <= |s| && BodyFrom(s, h + 9)
    requires s[h..h + 9] == "youtu.be/"
    ensures MatchAt(s, h) == Some(h + 9)
  {
    assert s[h + 5] == s[h..h + 9][5] == '.';
    HasAtChar(s, h, "youtube.com/", 5);
  }

  /** Where the extractor's capture starts in a rendered URL: the URL's own id, or the
      eleven characters after a second `v=`. */
  function CaptureStart(p: UrlParts): nat {
    if HasSecondV(p) then IdStart(p) + 14 else IdStart(p)
  }

  /** A route text followed by a body matches at the route's first character. */
  lemma MatchRouteAt(s: string, h: nat, route: Route)
    requires h + |RouteText(route)| <= |s| && s[h..h + |RouteText(route)|] == RouteText(route)
    requires BodyFrom(s, h + |RouteText(route)|)
    ensures var c := h + |RouteText(route)|;
            MatchAt(s, h) == Some(if route == Watch && SecondVAt(s, c) then c + 14 else c)
  {
    match route {
      case Watch => MatchWatchAt(s, h);
      case Embed => MatchEmbedAt(s, h);
      case V => MatchVAt(s, h);
      case Short => MatchShortAt(s, h);
    }
  }

  /** The facts `MatchRouteAt` needs about a rendered URL. */
  lemma RouteAndBody(p: UrlParts)
    requires WellFormed(p)
    ensures var s, h, c := Render(p), RouteStart(p), IdStart(p);
            && c == h + |RouteText(p.route)| <= |s|
            && s[h..c] == RouteText(p.route)
            && BodyFrom(s, c)
            && (forall j :: 0 <= j < h ==> s[j] != 'y')
            && CaptureStart(p) == (if p.route == Watch && SecondVAt(s, c) then c + 14 else c)
  {
    RenderPieces(p);
    BodyChars(p);
    SecondVRendered(p);
  }

  /** A string with no `y` before a route text that is followed by a body: the extractor's
      first match starts at the route, so it captures from the id, or from the second `v=`. */
  lemma ExtractAt(s: string, h: nat, route: Route, k: nat, id: string)
    requires h + |RouteText(route)| <= |s| && s[h..h + |RouteText(route)|] == RouteText(route)
    requires BodyFrom(s, h + |RouteText(route)|)
    requires forall j :: 0 <= j < h ==> s[j] != 'y'
    requires k == (var c := h + |RouteText(route)|; if route == Watch && SecondVAt(s, c) then c + 14 else c)
    requires k + 11 <= |s| && s[k..k + 11] == id
    ensures GetVideoId(s) == Some(id)
  {
    MatchRouteAt(s, h, route);
    forall j: nat | j < h
      ensures MatchAt(s, j).None?
    {
      NoMatchAt(s, j);
    }
    ScanSkips(s, 0, h);
  }

  /** The eleven characters captured from `CaptureStart` are the extracted id. */
  lemma CaptureRendered(p: UrlParts)
    requires WellFormed(p)
    ensures CaptureStart(p) + 11 <= |Render(p)|
    ensures Render(p)[CaptureStart(p)..CaptureStart(p) + 11] == ExtractedId(p)
  {
    var s, c := Render(p), IdStart(p);
    RenderPieces(p);
    if HasSecondV(p) {
      var t := p.tail.value;
      assert s[c + 11..] == "&" + t;
      assert s[c + 14..c + 25] == t[2..13];
    }
  }

  /** What `getVideoId` returns for any URL `validateYouTubeUrl` accepts: the URL's own id,
      except for a `watch` URL whose `&` tail starts with `v=` and eleven more characters,
      where the greedy `.*[?&]v=` picks those instead. */
  lemma ExtractRendered(p: UrlParts)
    requires WellFormed(p)
    ensures GetVideoId(Render(p)) == Some(ExtractedId(p))
  {
    RouteAndBody(p);
    CaptureRendered(p);
    ExtractAt(Render(p), RouteStart(p), p.route, CaptureStart(p), ExtractedId(p));
  }

  /** For a URL the validator accepts that has no `&` suffix, the extractor returns exactly the
      eleven characters the validator read as the id. */
  lemma ValidatedUrlId(url: string)
    requires ValidateYouTubeUrl(url) && ParseUrl(url).value.tail.None?
    ensures GetVideoId(url) == Some(ParseUrl(url).value.id)
  {
    ParseSound(url);
    ExtractRendered(ParseUrl(url).value);
  }

  /** The two recognisers disagree on a doubled `v=`: the validator reads the first id, the
      extractor returns the second. For instance `youtube.com/watch?v=AAAAAAAAAAA&v=BBBBBBBBBBB`
      yields `BBBBBBBBBBB`. The second id is made of word characters, because the validator's
      `[\w=]` tail admits no `-`. */
  lemma ValidatorExtractorDisagree(first: string, second: string)
    requires IsVideoId(first)
    requires |second| == 11 && forall i :: 0 <= i < 11 ==> IsWordChar(second[i])
    ensures var url := "youtube.com/watch?v=" + first + "&v=" + second;
            && ValidateYouTubeUrl(url)
            && ParseUrl(url).value.id == first
            && GetVideoId(url) == Some(second)
  {
    var url := "youtube.com/watch?v=" + first + "&v=" + second;
    var p := UrlParts(NoScheme, false, Watch, first, Some("v=" + second));
    assert WellFormed(p) by {
      assert forall i :: 2 <= i < 13 ==> p.tail.value[i] == second[i - 2];
    }
    assert Render(p) == url;
    assert HasSecondV(p) by {
      assert p.tail.value[..2] == "v=";
    }
    assert ParseUrl(url) == Some(p) by {
      ParseRender(p);
    }
    assert GetVideoId(url) == Some(second) by {
      ExtractRendered(p);
      assert p.tail.value[2..13] == second;
    }
  }
}
