# YouTube API façade — a Dafny model

The repository is a small Express service in front of two YouTube client libraries
(`ytdl-core` for video metadata and streams, `youtube-sr` for search). This project models its
own logic as pure Dafny functions over immutable records:

- **The string and arithmetic helpers** in `utils/helper.js`:
  - `formatDuration`: seconds to `M:SS` or `H:MM:SS`.
  - `validateYouTubeUrl`: the anchored URL recogniser. It is written as a parser into a
    `UrlParts` record, with `Render` as its inverse.
  - `getVideoId`: the unanchored id extractor. It is a leftmost-start scan that tries the
    regular expression's alternatives in order, so each greedy `.+`/`.*` ends at its last
    candidate.
  - `sanitizeString`: script-block removal, angle-bracket removal and a JavaScript `trim`.
  - `validateParams`.
- **The download handler** in `api/download.js`:
  - the order of its request checks;
  - the audio versus audio+video family;
  - the fixed quality-rank table and the descending sort;
  - the top-10 slice and total count, the description truncation and the error classification;
  - the stream route's attachment filename.
- **The info handlers** in `api/info.js`:
  - the id check, which goes through the URL validator;
  - the shaping of the reply: format lists, related videos capped at five, the four thumbnails,
    author and duration;
  - the error classification;
  - the `/formats` route's type filter and track classification.
- **The search handlers** in `api/search.js`:
  - query validation and the limit cap;
  - the empty-result reply;
  - the one-to-one result mapping, with sanitised text, field defaults and first-occurrence
    thumbnail rewriting;
  - the suggestions route.

Each handler is a function from the request fields to a `Reply`: either `Success(data)` or
`Fail(Failure(status, flagged, error, message, details))`. `flagged` records whether the JSON
body carries `success: false`.

Calls into the libraries become function-valued parameters. For example,
`getInfo: string -> Result<Info>` answers either a record or an error message. The libraries'
`filterFormats` becomes a predicate on the `hasAudio`/`hasVideo` flags. The
`NODE_ENV === 'development'` test becomes a boolean `dev` parameter.

A few behaviours of the code are kept as written:

- **Missing description.** In download, an absent description gives the text
  `"undefined..."`.
- **Empty thumbnail list.** In download, an empty thumbnail list throws inside the `try`
  block. That throw ends in the 500 branch of the error classification.
- **`familySafe`.** In info, `familySafe` is the negation of the library's `isFamilySafe`.
- **The two URL languages disagree.** `Urls.ValidatorExtractorDisagree` shows that
  `youtube.com/watch?v=<A>&v=<B>` passes the validator with id `A`, yet the extractor returns
  `B`. In the download handler, the extracted id is only logged, so replies do not depend on
  it.

## Model

| member | source | states |
|---|---|---|
| `Helper.FormatDuration` | utils/helper.js:23-24 | an absent or zero duration renders as `0:00` |
| `Helper.FormatDurationShape` | utils/helper.js:26-33 | at least an hour gives three colon-separated numerals, less gives two; every field after the first is exactly two digits and below 60; the minutes of a sub-hour duration are below 60; the leading field has no leading zero |
| `Helper.FormatDurationRoundTrip` | utils/helper.js:26-33 | reading the fields back as H, M, S and summing H·3600 + M·60 + S recovers the input seconds |
| `Decimal.NatToStringRoundTrip` | utils/helper.js:31-33 | the decimal text of a number in a template string reads back as that number |
| `Decimal.Pad2` | utils/helper.js:31 | `padStart(2, '0')` of a value below 100 is two digits that read back as the value |
| `Urls.ParseSound` | utils/helper.js:15-18 | whatever the validator accepts is a well-formed scheme / `www.` / route / 11-character id / optional `&` tail that renders back to the input |
| `Urls.ParseRender` | utils/helper.js:16 | every well-formed combination of the pattern's groups is accepted, and parses back to the same parts |
| `Urls.ValidateExactly` | utils/helper.js:15-18 | the validator accepts a string if and only if it is the rendering of some well-formed parts |
| `Urls.GetVideoId` | utils/helper.js:6-10 | a found id has length 11 and none of `"`, `&`, `?`, `/` or whitespace |
| `Urls.LastAnchor` | utils/helper.js:7 | the greedy `.*[?&]v=` settles on the last `?v=`/`&v=` before the end of the line, and on no earlier one |
| `Urls.ExtractRendered` | utils/helper.js:7 | on any URL the validator accepts, the extractor returns the validated id, or the 11 characters after a second `v=` when the `&` tail starts with `v=` and is long enough |
| `Urls.ValidatedUrlId` | utils/helper.js:7-16 | for an accepted URL without an `&` tail, the extractor returns exactly the validated 11-character id |
| `Urls.ValidatorExtractorDisagree` | utils/helper.js:7-16 | `youtube.com/watch?v=A&v=B` is accepted with id `A`, yet the extractor returns `B` |
| `Text.Trim` | utils/helper.js:43 | the result is a contiguous slice with only JavaScript whitespace cut from either end, has no whitespace at either end, and leaves an already-trimmed string unchanged |
| `Helper.CloseTagFrom` | utils/helper.js:41 | finds the first case-insensitive `</script>` at or after a position, or reports that there is none |
| `Helper.StripScripts` | utils/helper.js:41 | removing script blocks never lengthens the text or introduces characters, and is the identity on text without `<` |
| `Helper.SanitizeString` | utils/helper.js:39-44 | a falsy input gives `''`; otherwise the output has no `<` or `>`, no leading or trailing whitespace and no character the input lacks, and text without angle brackets comes out as its JavaScript `trim` |
| `Helper.SanitizeIdempotent` | utils/helper.js:39-44 | sanitising a sanitised string changes nothing |
| `Helper.MissingKeys` | utils/helper.js:68 | a key is reported missing exactly when it is required and its own value is absent or falsy and it is not inherited from `Object.prototype` (such as `constructor`), whose members read as truthy |
| `Helper.MissingKeysConcat` | utils/helper.js:68 | the missing keys of a concatenated list are the two lists' missing keys in order, so the filter keeps the order of `required` |
| `Helper.ValidateParams` | utils/helper.js:67-73 | `missing` is the `MissingKeys` filter of `required`, so it keeps the order and multiplicity of the required keys that are not supplied (own or inherited truthy value); `isValid` holds iff every required key is supplied, iff `missing` is empty |
| `Ytdl.FilterFormats` | api/download.js:49-60 | the family filter keeps exactly the formats whose track flags fit the family, and nothing else, and never lengthens the list |
| `Ytdl.FilterFormatsConcat` | api/download.js:49-60 | filtering distributes over concatenation, so the kept formats stay in source order and keep their multiplicity, as `Array.prototype.filter` does |
| `Ytdl.FilterFormatsSingle` | api/download.js:49-60 | a single format is kept exactly when its track flags fit the family; with the concatenation lemma this determines the filter on every list |
| `Ytdl.AudioQualityRoundTrip` | api/download.js:53 | the audio label reads back as the bitrate, and it is `unknown` exactly when the bitrate is falsy |
| `Download.FamilyLinks` | api/download.js:47-71 | `mp3` or `audio` selects the audio-only family, labelled `mp3` with quality `<n>kbps` for a truthy bitrate n and `unknown` otherwise; anything else selects audio+video, labelled `mp4` with `qualityLabel` or else `quality`; entries keep itag and URL in source order |
| `Download.RankOrder` | api/download.js:75-76 | the table ranks 2160p > 1440p > 1080p > 720p > 480p > 360p; every label outside the table ties with 360p, and only table labels other than 360p rank above zero |
| `Download.InsertByKey` | api/download.js:74-77 | inserting into a list sorted by descending key keeps it sorted and adds exactly one copy of the element |
| `Download.SortByRank` | api/download.js:74-77 | the sorted list is a permutation of its input with non-increasing rank |
| `Download.Description` | api/download.js:91 | the description is its first `min(200, len)` characters followed by `...`, appended unconditionally; an absent one gives `undefined...` |
| `Download.ClassifyError` | api/download.js:104-120 | `Video unavailable` in the message gives 404; otherwise `age-restricted` gives 403; everything else gives 500; details appear only under the dev flag |
| `Download.Fetched` | api/download.js:39-95 | a fetched video with no thumbnail ends in the catch block with the engine's `TypeError` from the handler's own `thumbnails[thumbnails.length - 1].url` read; otherwise it succeeds with the first `min(10, n)` ranked links of the requested family, `totalFormats == n`, the requested format, the truncated description and the last thumbnail |
| `Download.HandleDownload` | api/download.js:12-120 | a falsy URL gives `Missing URL` before the shape check gives `Invalid URL`, then the library check gives `Invalid video`; no other 400 is possible; past those checks a library error is classified by the catch block, and a fetched video succeeds exactly when it has a thumbnail; a success carries the first `min(10, n)` ranked links, `totalFormats == n`, the requested format and the last thumbnail |
| `Download.ReturnedLinksOutrankOmitted` | api/download.js:93-95 | the returned links are in rank order, are drawn from the mapped formats, and each ranks at least as high as every link cut off by the slice |
| `Download.StreamTitle` | api/download.js:139 | the filename title keeps only word characters and whitespace, and leaves a title made only of such characters unchanged |
| `Download.StreamTitleInOrder` | api/download.js:139 | the filter works character by character over concatenation, so the kept characters appear in their original order |
| `Download.ContentDisposition` | api/download.js:141 | the header is `attachment; filename="<title>.<format>"`, format defaulting to `mp4`, and the name part contains no `"` |
| `Info.WatchUrlAccepted` | api/info.js:11-18 | an id passes the route's check iff it is 11 `[\w-]` characters, optionally followed by `&` and `[\w=]*` |
| `Info.FormatListsOf` | api/info.js:27-45 | the audio and video lists map the audio-only and audio+video families one to one; audio quality is `<n>kbps` for a truthy bitrate n and `unknown` otherwise, video quality `qualityLabel` or else `quality`; `total` is the unfiltered count |
| `Info.RelatedEntries` | api/info.js:48-55 | related videos are the first at most five source entries, in order, or `[]` when the source has none |
| `Info.ThumbnailsOf` | api/info.js:77-82 | `default`, `medium` and `high` are entries 0, 1 and 2 when present; `maxres` is the last entry, present exactly when `default` is; it coincides with `default` for one thumbnail and with `high` for three |
| `Info.ClassifyError` | api/info.js:107-126 | `Video unavailable` gives 404; otherwise `private` gives 403; everything else gives 500; details appear only under the dev flag |
| `Info.HandleInfo` | api/info.js:8-105 | the reply is the 400 `Invalid video ID` exactly when the id fails the check; a library error is classified; the reply succeeds exactly when the id passes and the library answers; a success holds the format lists and the first five related videos as `FormatListsOf` and `RelatedEntries` describe, the thumbnail selection, the formatted duration, `keywords` or `[]` as tags, the negated family-safe flag and the watch URL |
| `Info.TrackKind` | api/info.js:149 | a format is `video` iff it has both tracks, `audio` iff it has audio alone, and `video-only` iff it has no audio, including a format with neither track |
| `Info.FormatEntryOf` | api/info.js:147-158 | `resolution` is null exactly when the format has no video track |
| `Info.SelectByType` | api/info.js:134-145 | `audio` is the audio-only family filter and `video` the audio+video one, so each keeps source order and multiplicity; any other type, the default `all` included, leaves the list unchanged |
| `Info.HandleFormats` | api/info.js:131-175 | any library error is a flagged 500 that carries the upstream message; a success maps the selected formats one to one, and `count` equals the data length |
| `Search.SearchLimit` | api/search.js:26 | the limit never exceeds 50; it is 20 when absent, non-numeric or zero; smaller values, negative ones included, pass through |
| `Search.Resize` | api/search.js:63-65 | a thumbnail size is the default URL with only its first `default` replaced, or the URL itself when `default` does not occur; it is absent exactly when the URL is |
| `Search.AuthorOf` | api/search.js:48-53 | the author name is the sanitised channel name, or `Unknown` when the channel or its name is absent or empty; it is bracket-free; `verified` holds exactly when the channel says `true` |
| `Search.Found` | api/search.js:35-76 | a null or empty answer gives `No videos found` with no data and count 0; otherwise the message is `Found N videos` for the N hits, the data maps the hits one to one and in order, every entry bracket-free, `count` equals its length, and the query is echoed back |
| `Search.FoundMessageCounts` | api/search.js:35-79 | two replies with the same message have the same count: the message determines how many videos were found |
| `Search.HandleSearch` | api/search.js:8-92 | an absent or empty query gives `Missing query parameter`, checked before `Query too short` for queries shorter than 2; otherwise the library is asked with the capped limit and the type (default `video`), a completed answer is reported as `Found` describes, and a library error is a 500 whose details appear only under the dev flag |
| `Search.HandleSuggestions` | api/search.js:96-124 | a missing query gives 400; the reply succeeds exactly when the query is truthy and the library answers; a success echoes the query and the suggestions, with `count` equal to their number; a library error is a flagged 500 that carries the upstream message |

## Left out

- `server.js` is not part of this model. Its middleware, health, docs and 404 routes return constant or configuration-driven JSON.
- `formatFileSize` is left out because it uses floating-point `Math.log`/`Math.pow`.
- `generateId` is left out because it uses `Math.random`.
- The `createErrorResponse`/`createSuccessResponse` envelopes are left out; without their timestamps they are plain record constructors.
- Timestamps, `console` logging and the constant `api` field of replies are left out; the `NODE_ENV` test is the `dev` parameter.
- The libraries are left out:
  - `ytdl.getInfo`, `ytdl.validateURL`, `YouTube.search` and `YouTube.getSuggestions` are parameters;
  - `ytdl.filterFormats` is the flag predicate `Ytdl.Admits`;
  - the stream route's `ytdl(...)` call, `pipe`, its `validateURL` 400 and its 500 branch are not modelled: only its filename is.
- `parseInt` on arbitrary strings is left out. `lengthSeconds`, `viewCount` and `limit` arrive already parsed, and `limit` is `None` when not numeric.
- JavaScript numbers are modelled as unbounded integers. The model describes the source for values at or below `Number.MAX_SAFE_INTEGER` (2^53 - 1), where JavaScript integers are exact and are written in plain digits; the rounding above it and the exponent notation JavaScript uses from 10^21 on are not modelled. Fractional durations and bitrates are out of scope.
- JavaScript strings are UTF-16. Lengths here count characters, so these agree with the source only for text without surrogate pairs: the `query.length < 2` check, `substring(0, 200)`, and the eleven-character id patterns of `Urls.GetVideoId` (`[^"&?\/\s]{11}`) and `Urls.ValidateYouTubeUrl` (`[\w-]{11}`).
- Query parameters given as arrays, which Express can produce, are not modelled: queries are strings.
- The unused `formats` filter at api/download.js:43 and the unused `quality` parameter at api/download.js:10 are dead code and are left out.
- The stream route's `quality` parameter (api/download.js:128) is passed only to the `ytdl(...)` stream call at api/download.js:143-146, so it is left out together with that call.
- The handlers import `../utils/helpers` while the file is `utils/helper.js`. The model treats both as the same module.
- Download.SortByRank: states the rank order and the permutation, not the order among equal ranks, which depends on the engine's sort.
- Download.QualityRank: a label naming an `Object.prototype` member such as `constructor` ranks 0 here; in JavaScript the lookup yields a function, and the comparator then returns `NaN`.
- Info.HandleInfo: an absent `thumbnails` list or `author` record in the library's answer, which would throw, is not modelled; both are always present here.
- Search.HandleSuggestions: a null answer from the library, which would throw and end in the 500 branch, is not modelled; the answer is always a list.
- Download.HandleDownload: a request body whose `format` field is `null` is not modelled; `None` stands for an absent or `undefined` field, which the destructuring default turns into `best`, while JavaScript keeps a `null` (audio+video family, `requestedFormat: null`).
- Helper.MissingKeys: `params` is taken to be an ordinary object whose prototype is `Object.prototype`; an object with a null prototype, or one whose prototype chain was altered, is not modelled.
