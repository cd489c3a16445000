/** `api/search.js`: video search and query suggestions over the search collaborator. */
module Search {
  import opened Wrappers
  import opened Text
  import opened Http
  import Decimal
  import Helper

  /** The channel record of a search hit; every field may be absent. */
  datatype Channel = Channel(name: Option<string>, id: Option<string>, url: Option<string>, verified: Option<bool>)

  /** One search hit as the collaborator returns it. */
  datatype Hit = Hit(
    id: Option<string>,
    title: Option<string>,
    channel: Option<Channel>,
    description: Option<string>,
    duration: Option<nat>,
    views: Option<nat>,
    uploadedAt: Option<string>,
    thumbnailUrl: Option<string>,
    url: Option<string>,
    kind: Option<string>,
    live: Option<bool>,
    tags: Option<seq<string>>,
    category: Option<string>)

  datatype AuthorEntry = AuthorEntry(name: string, id: Option<string>, url: Option<string>, verified: bool)

  /** The four thumbnail URLs; `standard` is the `default` member of the reply. */
  datatype ThumbnailSet = ThumbnailSet(standard: Option<string>, medium: Option<string>, high: Option<string>, maxres: Option<string>)

  datatype ResultEntry = ResultEntry(
    id: Option<string>,
    title: string,
    author: AuthorEntry,
    description: string,
    seconds: Option<nat>,
    formatted: string,
    views: Option<nat>,
    uploadedAt: Option<string>,
    thumbnail: ThumbnailSet,
    url: Option<string>,
    kind: Option<string>,
    live: bool,
    tags: seq<string>,
    category: string)

  datatype SearchData = SearchData(message: string, data: seq<ResultEntry>, count: nat, query: string)

  datatype SuggestionData = SuggestionData(data: seq<string>, count: nat, query: string)

  const DefaultLimit: int := 20
  const MaxLimit: int := 50

  /** `Math.min(parseInt(limit) || 20, 50)`; `limit` is the parsed value, `None` when absent or
      not a number. */
  function SearchLimit(limit: Option<int>): (n: int)
    ensures n <= MaxLimit
    ensures limit.None? || limit.value == 0 ==> n == DefaultLimit
    ensures limit.Some? && limit.value != 0 && limit.value <= MaxLimit ==> n == limit.value
    ensures limit.Some? && limit.value < 0 ==> n == limit.value
    ensures limit.Some? && limit.value > MaxLimit ==> n == MaxLimit
  {
    var asked := if limit.None? || limit.value == 0 then DefaultLimit else limit.value;
    if asked < MaxLimit then asked else MaxLimit
  }

  /** `url?.replace('default', size)`: only the first occurrence is rewritten. */
  function Resize(url: Option<string>, size: string): (r: Option<string>)
    ensures r.Some? <==> url.Some?
    ensures url.Some? && (forall j: nat :: !HasAt(url.value, j, "default")) ==> r == url
    ensures url.Some? ==>
              forall i: nat :: HasAt(url.value, i, "default") && (forall j: nat :: j < i ==> !HasAt(url.value, j, "default")) ==>
                r.value == url.value[..i] + size + url.value[i + 7..]
  {
    match url
    case None => None
    case Some(u) => Some(ReplaceFirst(u, "default", size))
  }

  function ThumbnailSetOf(url: Option<string>): ThumbnailSet {
    ThumbnailSet(url, Resize(url, "mqdefault"), Resize(url, "hqdefault"), Resize(url, "maxresdefault"))
  }

  function ChannelName(c: Option<Channel>): Option<string> {
    if c.Some? then c.value.name else None
  }

  /** The default author name passes sanitising unchanged. */
  lemma UnknownKept()
    ensures Helper.SanitizeString(Some("Unknown")) == "Unknown"
  {
    var u := "Unknown";
    assert '<' !in u && '>' !in u;
    assert !IsJsSpace(u[0]) && !IsJsSpace(u[|u| - 1]);
  }

  function AuthorOf(c: Option<Channel>): (a: AuthorEntry)
    ensures forall i :: 0 <= i < |a.name| ==> !Helper.IsBracket(a.name[i])
    ensures a.verified <==> c.Some? && c.value.verified == Some(true)
    ensures !IsTruthy(ChannelName(c)) ==> a.name == "Unknown"
    ensures IsTruthy(ChannelName(c)) ==> a.name == Helper.SanitizeString(ChannelName(c))
  {
    UnknownKept();
    AuthorEntry(
      Helper.SanitizeString(Some(OrElse(ChannelName(c), "Unknown"))),
      if c.Some? then c.value.id else None,
      if c.Some? then c.value.url else None,
      c.Some? && c.value.verified == Some(true))
  }

  function EntryOf(h: Hit): ResultEntry {
    ResultEntry(
      h.id,
      Helper.SanitizeString(h.title),
      AuthorOf(h.channel),
      Helper.SanitizeString(Some(OrElse(h.description, ""))),
      h.duration,
      Helper.FormatDuration(h.duration),
      h.views,
      h.uploadedAt,
      ThumbnailSetOf(h.thumbnailUrl),
      h.url,
      h.kind,
      h.live == Some(true),
      h.tags.GetOr([]),
      OrElse(h.category, "Unknown"))
  }

  /** Every free-text field of an entry is free of angle brackets. */
  predicate BracketFree(e: ResultEntry) {
    && (forall i :: 0 <= i < |e.title| ==> !Helper.IsBracket(e.title[i]))
    && (forall i :: 0 <= i < |e.description| ==> !Helper.IsBracket(e.description[i]))
    && (forall i :: 0 <= i < |e.author.name| ==> !Helper.IsBracket(e.author.name[i]))
  }

  /** The per-hit mapping keeps the hit's identity and applies the documented defaults. */
  lemma EntryOfShape(h: Hit)
    ensures var e := EntryOf(h);
            && e.id == h.id && e.url == h.url && e.seconds == h.duration
            && BracketFree(e)
            && (h.title.None? ==> e.title == "")
            && (e.live <==> h.live == Some(true))
            && e.tags == (if h.tags.Some? then h.tags.value else [])
            && e.category == (if IsTruthy(h.category) then h.category.value else "Unknown")
            && e.thumbnail.standard == h.thumbnailUrl
            && (h.thumbnailUrl.None? ==> e.thumbnail.medium.None? && e.thumbnail.high.None? && e.thumbnail.maxres.None?)
  {
  }

  function MissingQuery(): Failure {
    BadRequest("Missing query parameter", "Please provide a search query using the \"q\" parameter")
  }

  function ShortQuery(): Failure {
    BadRequest("Query too short", "Search query must be at least 2 characters long")
  }

  /** The 500 of the search route; the upstream message is disclosed only under the dev flag. */
  function SearchFailed(message: string, dev: bool): (f: Failure)
    ensures f.status == 500 && f.flagged
    ensures f.details.Some? <==> dev
  {
    Failure(500, true, "Search failed", Some("Unable to search YouTube at this time"), DevDetails(dev, message))
  }

  /** The answer to a search the collaborator completed: the count message, the entries in
      the order the hits came, and the query echoed back. */
  function Found(q: string, hits: Option<seq<Hit>>): (r: SearchData)
    ensures r.query == q
    ensures (hits.None? || |hits.value| == 0) ==> r == SearchData("No videos found", [], 0, q)
    ensures hits.Some? && |hits.value| > 0 ==> r.message == "Found " + Decimal.NatToString(|hits.value|) + " videos"
    ensures hits.Some? ==>
              && r.count == |r.data| == |hits.value|
              && forall i :: 0 <= i < |r.data| ==> r.data[i] == EntryOf(hits.value[i]) && BracketFree(r.data[i])
  {
    if hits.None? || |hits.value| == 0 then SearchData("No videos found", [], 0, q)
    else
      var data := seq(|hits.value|, i requires 0 <= i < |hits.value| => EntryOf(hits.value[i]));
      assert forall i :: 0 <= i < |data| ==> BracketFree(data[i]) by {
        forall i | 0 <= i < |data| ensures BracketFree(data[i]) {
          EntryOfShape(hits.value[i]);
        }
      }
      SearchData("Found " + Decimal.NatToString(|data|) + " videos", data, |data|, q)
  }

  /** The reply's message tells how many videos it holds: two answers with the same message
      have the same count. */
  lemma FoundMessageCounts(q1: string, hits1: Option<seq<Hit>>, q2: string, hits2: Option<seq<Hit>>)
    ensures Found(q1, hits1).message == Found(q2, hits2).message ==> Found(q1, hits1).count == Found(q2, hits2).count
  {
    var a, b := Found(q1, hits1), Found(q2, hits2);
    if a.count != 0 && b.count != 0 {
      if a.message == b.message {
        var n1, n2 := Decimal.NatToString(a.count), Decimal.NatToString(b.count);
        assert a.message[6..|a.message| - 7] == n1;
        assert b.message[6..|b.message| - 7] == n2;
        Decimal.NatToStringInjective(a.count, b.count);
      }
    } else if a.count != b.count {
      assert a.message[0] != b.message[0];
    }
  }

  /** GET `/`. `search` is the collaborator: given the query, the capped limit and the type, it
      answers a list of hits, `None` for a null answer, or an error. */
  function HandleSearch(query: Option<string>, limit: Option<int>, kind: Option<string>,
                        search: (string, int, string) -> Result<Option<seq<Hit>>>, dev: bool): (r: Reply<SearchData>)
    ensures !IsTruthy(query) <==> r == Fail(MissingQuery())
    ensures IsTruthy(query) && |query.value| < 2 <==> r == Fail(ShortQuery())
    ensures r.Success? || r.failure.status == 500 || r.failure.status == 400
    ensures IsTruthy(query) && |query.value| >= 2 ==>
              var answer := search(query.value, SearchLimit(limit), kind.GetOr("video"));
              && (answer.Err? ==> r == Fail(SearchFailed(answer.message, dev)))
              && (answer.Ok? ==> r == Success(Found(query.value, answer.value)))
  {
    if !IsTruthy(query) then Fail(MissingQuery())
    else if |query.value| < 2 then Fail(ShortQuery())
    else
      match search(query.value, SearchLimit(limit), kind.GetOr("video"))
      case Err(message) => Fail(SearchFailed(message, dev))
      case Ok(hits) => Success(Found(query.value, hits))
  }

  /** GET `/suggestions`: no length check, and any collaborator error is a flagged 500 with the
      upstream message. */
  function HandleSuggestions(query: Option<string>, suggest: string -> Result<seq<string>>): (r: Reply<SuggestionData>)
    ensures !IsTruthy(query) <==>
              r == Fail(BadRequest("Missing query parameter", "Please provide a search query"))
    ensures IsTruthy(query) && suggest(query.value).Err? ==>
              r == Fail(Failure(500, true, "Failed to get suggestions", Some(suggest(query.value).message), None))
    ensures r.Success? <==> IsTruthy(query) && suggest(query.value).Ok?
    ensures r.Success? ==>
              && r.data.data == suggest(query.value).value
              && r.data.count == |r.data.data|
              && r.data.query == query.value
  {
    if !IsTruthy(query) then Fail(BadRequest("Missing query parameter", "Please provide a search query"))
    else
      match suggest(query.value)
      case Err(message) => Fail(Failure(500, true, "Failed to get suggestions", Some(message), None))
      case Ok(suggestions) => Success(SuggestionData(suggestions, |suggestions|, query.value))
  }
}
