/** `api/download.js`: the POST handler that turns a video URL into a ranked list of direct
    download links, and the file name the stream route announces. */
module Download {
  import opened Wrappers
  import opened Text
  import opened Http
  import opened Ytdl
  import Urls

  /** One entry of the returned link list. Audio entries carry no `fps` or `bitrate`. */
  datatype LinkFormat = LinkFormat(
    itag: int,
    format: string,
    quality: string,
    size: Option<string>,
    url: string,
    mimeType: Option<string>,
    fps: Option<nat>,
    bitrate: Option<nat>)

  datatype VideoSummary = VideoSummary(
    id: string,
    title: string,
    author: string,
    duration: nat,
    views: nat,
    thumbnail: string,
    uploadDate: string,
    description: string)

  datatype DownloadData = DownloadData(
    video: VideoSummary,
    formats: seq<LinkFormat>,
    requestedFormat: string,
    totalFormats: nat)

  // ---------------------------------------------------------------------------------------
  // Format family
  // ---------------------------------------------------------------------------------------

  /** `format === 'mp3' || format === 'audio'`. */
  predicate IsAudioRequest(format: string) {
    format == "mp3" || format == "audio"
  }

  function AudioLink(f: Format): LinkFormat {
    LinkFormat(f.itag, "mp3", AudioQualityLabel(f.audioBitrate), f.contentLength, f.url, f.mimeType, None, None)
  }

  function VideoLink(f: Format): LinkFormat {
    LinkFormat(f.itag, "mp4", VideoQualityLabel(f), f.contentLength, f.url, f.mimeType, f.fps, f.bitrate)
  }

  /** The formats of the requested family, mapped one to one and in order to link entries. */
  function FamilyLinks(formats: seq<Format>, requested: string): (r: seq<LinkFormat>)
    ensures var family := if IsAudioRequest(requested) then AudioOnly else VideoAndAudio;
            var source := FilterFormats(formats, family);
            && |r| == |source|
            && forall i :: 0 <= i < |r| ==> r[i].itag == source[i].itag && r[i].url == source[i].url
    ensures IsAudioRequest(requested) ==>
              forall i :: 0 <= i < |r| ==> r[i].format == "mp3" && r[i].fps.None? && r[i].bitrate.None?
    ensures IsAudioRequest(requested) ==>
              var source := FilterFormats(formats, AudioOnly);
              forall i :: 0 <= i < |r| ==>
                && r[i].quality == AudioQualityLabel(source[i].audioBitrate)
                && (r[i].quality == "unknown" <==> source[i].audioBitrate.None? || source[i].audioBitrate.value == 0)
    ensures !IsAudioRequest(requested) ==>
              var source := FilterFormats(formats, VideoAndAudio);
              forall i :: 0 <= i < |r| ==> r[i].format == "mp4" && r[i].quality == VideoQualityLabel(source[i])
  {
    if IsAudioRequest(requested) then
      var source := FilterFormats(formats, AudioOnly);
      seq(|source|, i requires 0 <= i < |source| => AudioLink(source[i]))
    else
      var source := FilterFormats(formats, VideoAndAudio);
      seq(|source|, i requires 0 <= i < |source| => VideoLink(source[i]))
  }

  // ---------------------------------------------------------------------------------------
  // Quality ranking
  // ---------------------------------------------------------------------------------------

  /** The labels of the comparator's fixed table. */
  const TableLabels: set<string> := {"2160p", "1440p", "1080p", "720p", "480p", "360p"}

  /** `qualityOrder[quality] || 0` over the table `{2160p: 5, 1440p: 4, 1080p: 3, 720p: 2,
      480p: 1, 360p: 0}`: a label outside the table ranks 0, level with 360p. */
  function QualityRank(quality: string): (r: nat)
    ensures r <= 5
    ensures quality !in TableLabels ==> r == 0
  {
    if quality == "2160p" then 5
    else if quality == "1440p" then 4
    else if quality == "1080p" then 3
    else if quality == "720p" then 2
    else if quality == "480p" then 1
    else 0
  }

  /** The table orders the resolutions from highest to lowest, and every label it does not
      hold (an audio `<n>kbps` label, `unknown`) ties with the lowest. */
  lemma RankOrder(quality: string)
    ensures QualityRank("2160p") > QualityRank("1440p") > QualityRank("1080p")
              > QualityRank("720p") > QualityRank("480p") > QualityRank("360p")
    ensures quality !in TableLabels ==> QualityRank(quality) == QualityRank("360p")
    ensures QualityRank(quality) > 0 <==> quality in TableLabels - {"360p"}
  {
  }

  function Rank(f: LinkFormat): nat {
    QualityRank(f.quality)
  }

  /** Keys never increase along `s`. */
  predicate SortedBy(s: seq<LinkFormat>, key: LinkFormat -> nat) {
    forall i, j :: 0 <= i < j < |s| ==> key(s[i]) >= key(s[j])
  }

  predicate SortedByRank(s: seq<LinkFormat>) {
    SortedBy(s, Rank)
  }

  /** An entry whose key no later key exceeds can go in front of a sorted list. */
  lemma ConsSorted(y: LinkFormat, s: seq<LinkFormat>, key: LinkFormat -> nat)
    requires SortedBy(s, key)
    requires forall k :: 0 <= k < |s| ==> key(s[k]) <= key(y)
    ensures SortedBy([y] + s, key)
  {
    var r := [y] + s;
    forall i, j | 0 <= i < j < |r|
      ensures key(r[i]) >= key(r[j])
    {
      assert r[j] == s[j - 1];
      if i > 0 {
        assert r[i] == s[i - 1];
      }
    }
  }

  /** The tail of a sorted list is sorted, and no key in it exceeds the head's. */
  lemma TailSorted(s: seq<LinkFormat>, key: LinkFormat -> nat)
    requires SortedBy(s, key) && |s| > 0
    ensures SortedBy(s[1..], key)
    ensures forall k :: 0 <= k < |s[1..]| ==> key(s[1..][k]) <= key(s[0])
    ensures multiset(s) == multiset{s[0]} + multiset(s[1..])
  {
    assert s == [s[0]] + s[1..];
  }

  /** Inserting an entry that ranks below `y` into a list that ranks below `y` keeps every key
      at most `y`'s. */
  lemma InsertedBelow(x: LinkFormat, y: LinkFormat, s: seq<LinkFormat>, r: seq<LinkFormat>, key: LinkFormat -> nat)
    requires key(x) < key(y)
    requires forall k :: 0 <= k < |s| ==> key(s[k]) <= key(y)
    requires multiset(r) == multiset(s) + multiset{x}
    ensures forall k :: 0 <= k < |r| ==> key(r[k]) <= key(y)
  {
    forall k | 0 <= k < |r|
      ensures key(r[k]) <= key(y)
    {
      assert r[k] in multiset(r);
      if r[k] != x {
        assert r[k] in multiset(s);
        var m :| 0 <= m < |s| && s[m] == r[k];
      }
    }
  }

  /** Inserts `x` before the first entry whose key it is not below. */
  function InsertByKey(x: LinkFormat, s: seq<LinkFormat>, key: LinkFormat -> nat): (r: seq<LinkFormat>)
    requires SortedBy(s, key)
    ensures SortedBy(r, key)
    ensures multiset(r) == multiset(s) + multiset{x}
  {
    if |s| == 0 then [x]
    else if key(s[0]) <= key(x) then
      ConsSorted(x, s, key);
      [x] + s
    else
      TailSorted(s, key);
      var rest := InsertByKey(x, s[1..], key);
      InsertedBelow(x, s[0], s[1..], rest, key);
      ConsSorted(s[0], rest, key);
      [s[0]] + rest
  }

  /** Insertion sort by descending key: keys never increase along the result, which holds the
      same entries as the input. */
  function SortByKey(s: seq<LinkFormat>, key: LinkFormat -> nat): (r: seq<LinkFormat>)
    ensures SortedBy(r, key)
    ensures multiset(r) == multiset(s)
  {
    if |s| == 0 then []
    else
      assert s == [s[0]] + s[1..];
      InsertByKey(s[0], SortByKey(s[1..], key), key)
  }

  /** The comparator sort `(a, b) => rank(b) - rank(a)`: ranks never increase along the result,
      which holds the same entries as the input. */
  function SortByRank(s: seq<LinkFormat>): (r: seq<LinkFormat>)
    ensures SortedByRank(r)
    ensures multiset(r) == multiset(s)
  {
    SortByKey(s, Rank)
  }

  /** The full sorted link list before truncation. */
  function RankedLinks(formats: seq<Format>, requested: string): (r: seq<LinkFormat>)
    ensures SortedByRank(r)
    ensures multiset(r) == multiset(FamilyLinks(formats, requested))
  {
    SortByRank(FamilyLinks(formats, requested))
  }

  /** How many links the reply carries. */
  const MaxLinks: nat := 10

  /** `description?.substring(0, 200) + '...'`: the first 200 characters at most, then an
      ellipsis appended whatever the length; an absent description renders as `undefined`. */
  function Description(description: Option<string>): (r: string)
    ensures |r| >= 3 && r[|r| - 3..] == "..."
    ensures description.Some? ==> |r| == (if |description.value| < 200 then |description.value| else 200) + 3
    ensures description.Some? ==> r[..|r| - 3] == description.value[..|r| - 3]
    ensures description.None? ==> r == "undefined..."
  {
    match description
    case None => "undefined..."
    case Some(d) =>
      var n := if |d| < 200 then |d| else 200;
      var r := d[..n] + "...";
      assert r[..|r| - 3] == d[..n];
      r
  }

  // ---------------------------------------------------------------------------------------
  // The POST handler
  // ---------------------------------------------------------------------------------------

  /** The message V8 gives when `thumbnails[thumbnails.length - 1].url` reads an empty list. */
  const MissingThumbnailError: string := "Cannot read properties of undefined (reading 'url')"

  /** The catch block: substring tests on the error message pick the status. */
  function ClassifyError(message: string, dev: bool): (f: Failure)
    ensures f.status == 404 <==> Contains(message, "Video unavailable")
    ensures f.status == 403 <==> !Contains(message, "Video unavailable") && Contains(message, "age-restricted")
    ensures f.status == 500 <==> !Contains(message, "Video unavailable") && !Contains(message, "age-restricted")
    ensures f.flagged && f.error == "Download failed"
    ensures f.details == (if dev then Some(message) else None)
  {
    if Contains(message, "Video unavailable") then
      Failure(404, true, "Download failed", Some("Video is unavailable or private"), DevDetails(dev, message))
    else if Contains(message, "age-restricted") then
      Failure(403, true, "Download failed", Some("Video is age-restricted"), DevDetails(dev, message))
    else
      Failure(500, true, "Download failed", Some("Unable to process download request"), DevDetails(dev, message))
  }

  function MissingUrl(): Failure {
    BadRequest("Missing URL", "Please provide a YouTube video URL")
  }

  function InvalidUrl(): Failure {
    BadRequest("Invalid URL", "Please provide a valid YouTube video URL")
  }

  function InvalidVideo(): Failure {
    BadRequest("Invalid video", "Video not found or unavailable")
  }

  /** The reply for a video the collaborator fetched: the video summary, the first `MaxLinks`
      ranked links of the requested family and their total. An empty thumbnail list makes the
      handler's `thumbnails[length - 1].url` throw, which the catch block classifies. */
  function Fetched(info: Info, requested: string, dev: bool): (r: Reply<DownloadData>)
    ensures r.Success? <==> |info.videoDetails.thumbnails| > 0
    ensures r.Fail? ==> r.failure == ClassifyError(MissingThumbnailError, dev)
    ensures r.Success? ==>
              var ranked := RankedLinks(info.formats, requested);
              && r.data.totalFormats == |ranked|
              && |r.data.formats| == (if |ranked| < MaxLinks then |ranked| else MaxLinks)
              && r.data.formats == ranked[..|r.data.formats|]
              && r.data.requestedFormat == requested
              && r.data.video.description == Description(info.videoDetails.description)
              && r.data.video.thumbnail == info.videoDetails.thumbnails[|info.videoDetails.thumbnails| - 1].url
  {
    var details := info.videoDetails;
    var ranked := RankedLinks(info.formats, requested);
    if |details.thumbnails| == 0 then Fail(ClassifyError(MissingThumbnailError, dev))
    else
      var video := VideoSummary(
        details.videoId, details.title, details.author.name, details.lengthSeconds, details.viewCount,
        details.thumbnails[|details.thumbnails| - 1].url, details.uploadDate, Description(details.description));
      var shown := if |ranked| < MaxLinks then |ranked| else MaxLinks;
      Success(DownloadData(video, ranked[..shown], requested, |ranked|))
  }

  /** POST `/`. `url` and `format` are the body fields (`None` when absent), `validateUrl` and
      `getInfo` the collaborator's answers, `dev` the development flag. */
  function HandleDownload(url: Option<string>, format: Option<string>, validateUrl: string -> bool,
                          getInfo: string -> Result<Info>, dev: bool): (r: Reply<DownloadData>)
    ensures !IsTruthy(url) ==> r == Fail(MissingUrl())
    ensures IsTruthy(url) && !Urls.ValidateYouTubeUrl(url.value) ==> r == Fail(InvalidUrl())
    ensures IsTruthy(url) && Urls.ValidateYouTubeUrl(url.value) && !validateUrl(url.value) ==>
              r == Fail(InvalidVideo())
    ensures r.Status() == 400 ==> r.failure in {MissingUrl(), InvalidUrl(), InvalidVideo()}
    ensures IsTruthy(url) && Urls.ValidateYouTubeUrl(url.value) && validateUrl(url.value) ==>
              var answer := getInfo(url.value);
              && (answer.Err? ==> r == Fail(ClassifyError(answer.message, dev)))
              && (answer.Ok? ==> r == Fetched(answer.value, format.GetOr("best"), dev))
              && (answer.Ok? ==> (r.Success? <==> |answer.value.videoDetails.thumbnails| > 0))
    ensures r.Success? ==> IsTruthy(url) && Urls.ValidateYouTubeUrl(url.value) && validateUrl(url.value)
    ensures r.Success? ==> getInfo(url.value).Ok?
    ensures r.Success? ==>
              var info := getInfo(url.value).value;
              var ranked := RankedLinks(info.formats, format.GetOr("best"));
              && r.data.totalFormats == |ranked|
              && |r.data.formats| == (if |ranked| < MaxLinks then |ranked| else MaxLinks)
              && r.data.formats == ranked[..|r.data.formats|]
              && r.data.requestedFormat == format.GetOr("best")
              && r.data.video.description == Description(info.videoDetails.description)
              && |info.videoDetails.thumbnails| > 0
              && r.data.video.thumbnail == info.videoDetails.thumbnails[|info.videoDetails.thumbnails| - 1].url
  {
    if !IsTruthy(url) then Fail(MissingUrl())
    else if !Urls.ValidateYouTubeUrl(url.value) then Fail(InvalidUrl())
    else if !validateUrl(url.value) then Fail(InvalidVideo())
    else
      match getInfo(url.value)
      case Err(message) => Fail(ClassifyError(message, dev))
      case Ok(info) => Fetched(info, format.GetOr("best"), dev)
  }

  /** The returned links are the best-ranked: none ranks below a link that was cut off, and the
      returned list itself is in rank order. */
  lemma ReturnedLinksOutrankOmitted(url: Option<string>, format: Option<string>, validateUrl: string -> bool,
                                    getInfo: string -> Result<Info>, dev: bool)
    requires HandleDownload(url, format, validateUrl, getInfo, dev).Success?
    ensures var r := HandleDownload(url, format, validateUrl, getInfo, dev);
            var ranked := RankedLinks(getInfo(url.value).value.formats, format.GetOr("best"));
            && SortedByRank(r.data.formats)
            && multiset(r.data.formats) <= multiset(FamilyLinks(getInfo(url.value).value.formats, format.GetOr("best")))
            && forall i, j :: 0 <= i < |r.data.formats| <= j < |ranked| ==> Rank(r.data.formats[i]) >= Rank(ranked[j])
  {
    var r := HandleDownload(url, format, validateUrl, getInfo, dev);
    var ranked := RankedLinks(getInfo(url.value).value.formats, format.GetOr("best"));
    SortedPrefix(ranked, |r.data.formats|);
  }

  /** A prefix of a rank-sorted list is sorted, is a sub-multiset of the list, and outranks
      the rest of it. */
  lemma SortedPrefix(s: seq<LinkFormat>, n: nat)
    requires SortedByRank(s) && n <= |s|
    ensures SortedByRank(s[..n])
    ensures multiset(s[..n]) <= multiset(s)
    ensures forall i, j :: 0 <= i < n <= j < |s| ==> Rank(s[..n][i]) >= Rank(s[j])
  {
    assert s == s[..n] + s[n..];
    assert multiset(s) == multiset(s[..n]) + multiset(s[n..]);
  }

  // ---------------------------------------------------------------------------------------
  // The stream route's file name
  // ---------------------------------------------------------------------------------------

  predicate IsTitleChar(c: char) {
    IsWordChar(c) || IsJsSpace(c)
  }

  /** `title.replace(/[^\w\s]/gi, '')`. */
  function StreamTitle(title: string): (r: string)
    ensures forall i :: 0 <= i < |r| ==> IsTitleChar(r[i]) && r[i] in title
    ensures (forall i :: 0 <= i < |title| ==> IsTitleChar(title[i])) ==> r == title
  {
    Keep(title, IsTitleChar)
  }

  /** The title keeps its word and white-space characters in their order: the filter works
      character by character and distributes over concatenation. */
  lemma StreamTitleInOrder(a: string, b: string, c: char)
    ensures StreamTitle(a + b) == StreamTitle(a) + StreamTitle(b)
    ensures StreamTitle([c]) == (if IsTitleChar(c) then [c] else [])
  {
    KeepConcat(a, b, IsTitleChar);
  }

  /** The `Content-Disposition` header of the stream route; `format` defaults to `mp4`. The
      title cannot close the quoted file name, since it keeps no `"`. */
  function ContentDisposition(title: string, format: Option<string>): (h: string)
    ensures |h| == 22 + |StreamTitle(title)| + 1 + |format.GetOr("mp4")| + 1
    ensures var prefix := "attachment; filename=\"";
            var name := StreamTitle(title);
            && h[..|prefix|] == prefix
            && h[|prefix|..|prefix| + |name|] == name
            && '"' !in name
            && h[|prefix| + |name|] == '.'
            && h[|prefix| + |name| + 1..|h| - 1] == format.GetOr("mp4")
            && h[|h| - 1] == '"'
  {
    var name := StreamTitle(title);
    var h := "attachment; filename=\"" + name + "." + format.GetOr("mp4") + "\"";
    assert '"' !in name by {
      assert !IsTitleChar('"');
    }
    h
  }
}
