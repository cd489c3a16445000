/** `api/info.js`: video details for an id, and the format list of the `/formats` route. */
module Info {
  import opened Wrappers
  import opened Text
  import opened Http
  import opened Ytdl
  import Urls
  import Helper

  datatype AudioEntry = AudioEntry(
    itag: int, kind: string, quality: string, container: Option<string>, size: Option<string>, bitrate: Option<nat>)

  datatype VideoEntry = VideoEntry(
    itag: int, kind: string, quality: string, container: Option<string>, size: Option<string>,
    fps: Option<nat>, bitrate: Option<nat>, resolution: string)

  datatype FormatLists = FormatLists(audio: seq<AudioEntry>, video: seq<VideoEntry>, total: nat)

  datatype RelatedEntry = RelatedEntry(
    id: string, title: string, author: Option<string>, duration: string, views: Option<string>, thumbnail: Option<string>)

  datatype AuthorInfo = AuthorInfo(
    name: string, id: string, url: string, avatar: Option<string>, verified: bool, subscribers: Option<nat>)

  datatype Duration = Duration(seconds: nat, formatted: string)

  /** The four thumbnail sizes; `standard` is the `default` member of the reply. */
  datatype Thumbnails = Thumbnails(standard: Option<string>, medium: Option<string>, high: Option<string>, maxres: Option<string>)

  datatype VideoInfo = VideoInfo(
    id: string,
    title: string,
    description: Option<string>,
    author: AuthorInfo,
    duration: Duration,
    views: nat,
    likes: Option<nat>,
    uploadDate: string,
    publishDate: string,
    thumbnails: Thumbnails,
    category: Option<string>,
    tags: seq<string>,
    isLive: bool,
    isPrivate: bool,
    ageRestricted: bool,
    familySafe: bool,
    availableCountries: seq<string>,
    formats: FormatLists,
    relatedVideos: seq<RelatedEntry>,
    url: string)

  /** The canonical watch URL the handlers rebuild from a path id. */
  function WatchUrl(videoId: string): string {
    "https://www.youtube.com/watch?v=" + videoId
  }

  // ---------------------------------------------------------------------------------------
  // The id check
  // ---------------------------------------------------------------------------------------

  /** An id the route accepts: eleven `[\w-]` characters, optionally followed by `&` and
      `[\w=]*`. */
  predicate IsIdParam(videoId: string) {
    && |videoId| >= 11
    && Urls.IsVideoId(videoId[..11])
    && (|videoId| == 11 || (videoId[11] == '&' && Urls.IsTail(videoId[12..])))
  }

  /** The watch URL is the scheme, `www.` and the watch route of the validator's pattern,
      followed by the id. */
  lemma WatchUrlSplit(videoId: string)
    ensures WatchUrl(videoId) == Urls.SchemeText(Urls.Https) + ("www." + (Urls.RouteText(Urls.Watch) + videoId))
  {
    var a, b, c := Urls.SchemeText(Urls.Https), "www.", Urls.RouteText(Urls.Watch);
    assert a + b == "https://www.";
    assert "https://www." + c == "https://www.youtube.com/watch?v=";
    assert a + b + c + videoId == a + (b + (c + videoId));
  }

  /** Unwinds the parser's first three steps on a watch URL: what is left after the route
      is the id parameter itself. */
  lemma WatchUrlPrefix(videoId: string)
    ensures var s := WatchUrl(videoId);
            var s1 := s[|Urls.SchemeText(Urls.ParseScheme(s))|..];
            && Urls.ParseScheme(s) == Urls.Https
            && Urls.StartsWith(s1, "www.")
            && s1[|Urls.WwwText(true)|..] == Urls.RouteText(Urls.Watch) + videoId
  {
    var s := WatchUrl(videoId);
    var rest := "www." + (Urls.RouteText(Urls.Watch) + videoId);
    WatchUrlSplit(videoId);
    assert Urls.ParseScheme(s) == Urls.Https && s[|Urls.SchemeText(Urls.Https)|..] == rest by {
      Urls.ParseSchemeOf(Urls.Https, rest);
    }
    assert rest[..4] == "www." && rest[4..] == Urls.RouteText(Urls.Watch) + videoId;
  }

  /** The tail step of the parser accepts exactly an empty rest or `&` and `[\w=]*`. */
  lemma ParseTailAccepts(t: string)
    ensures Urls.ParseTail(t).Some? <==> |t| == 0 || (t[0] == '&' && Urls.IsTail(t[1..]))
  {
  }

  /** The route's check goes through the URL validator, and passes exactly for such ids. */
  lemma WatchUrlAccepted(videoId: string)
    ensures Urls.ValidateYouTubeUrl(WatchUrl(videoId)) <==> IsIdParam(videoId)
  {
    var s := WatchUrl(videoId);
    WatchUrlPrefix(videoId);
    var s2 := Urls.RouteText(Urls.Watch) + videoId;
    Urls.ParseRouteOf(Urls.Watch, videoId);
    assert s2[|Urls.RouteText(Urls.Watch)|..] == videoId;
    assert Urls.ParseUrl(s) ==
      if |videoId| < 11 || !Urls.IsVideoId(videoId[..11]) then None
      else match Urls.ParseTail(videoId[11..])
        case None => None
        case Some(tail) => Some(Urls.UrlParts(Urls.Https, true, Urls.Watch, videoId[..11], tail));
    if |videoId| >= 11 {
      ParseTailAccepts(videoId[11..]);
      if |videoId| > 11 {
        assert videoId[11..][1..] == videoId[12..];
      }
    }
  }

  // ---------------------------------------------------------------------------------------
  // Shaping the reply
  // ---------------------------------------------------------------------------------------

  function AudioEntryOf(f: Format): AudioEntry {
    AudioEntry(f.itag, "audio", AudioQualityLabel(f.audioBitrate), f.container, f.contentLength, f.bitrate)
  }

  function VideoEntryOf(f: Format): VideoEntry {
    VideoEntry(f.itag, "video", VideoQualityLabel(f), f.container, f.contentLength, f.fps, f.bitrate, Resolution(f))
  }

  /** The audio-only and audio+video families, each mapped in order, and the unfiltered count. */
  function FormatListsOf(formats: seq<Format>): (r: FormatLists)
    ensures r.total == |formats|
    ensures var audio := FilterFormats(formats, AudioOnly);
            && |r.audio| == |audio|
            && forall i :: 0 <= i < |r.audio| ==>
                 && r.audio[i].itag == audio[i].itag
                 && r.audio[i].quality == AudioQualityLabel(audio[i].audioBitrate)
                 && (r.audio[i].quality == "unknown" <==> audio[i].audioBitrate.None? || audio[i].audioBitrate.value == 0)
    ensures var video := FilterFormats(formats, VideoAndAudio);
            && |r.video| == |video|
            && forall i :: 0 <= i < |r.video| ==> r.video[i].itag == video[i].itag && r.video[i].quality == VideoQualityLabel(video[i])
  {
    var audio := FilterFormats(formats, AudioOnly);
    var video := FilterFormats(formats, VideoAndAudio);
    FormatLists(
      seq(|audio|, i requires 0 <= i < |audio| => AudioEntryOf(audio[i])),
      seq(|video|, i requires 0 <= i < |video| => VideoEntryOf(video[i])),
      |formats|)
  }

  /** `thumbnails?.[0]?.url`. */
  function FirstThumbnail(thumbnails: Option<seq<Thumbnail>>): Option<string> {
    if thumbnails.Some? && |thumbnails.value| > 0 then Some(thumbnails.value[0].url) else None
  }

  function RelatedEntryOf(v: RelatedVideo): RelatedEntry {
    RelatedEntry(v.id, v.title, v.authorName, Helper.FormatDuration(v.lengthSeconds), v.viewCount, FirstThumbnail(v.thumbnails))
  }

  /** How many related videos the reply keeps. */
  const MaxRelated: nat := 5

  /** `related_videos?.slice(0, 5).map(...) || []`. */
  function RelatedEntries(related: Option<seq<RelatedVideo>>): (r: seq<RelatedEntry>)
    ensures related.None? ==> r == []
    ensures related.Some? ==> |r| == (if |related.value| < MaxRelated then |related.value| else MaxRelated)
    ensures related.Some? ==> forall i :: 0 <= i < |r| ==> r[i] == RelatedEntryOf(related.value[i])
    ensures |r| <= MaxRelated
  {
    match related
    case None => []
    case Some(vs) =>
      var kept := if |vs| < MaxRelated then vs else vs[..MaxRelated];
      seq(|kept|, i requires 0 <= i < |kept| => RelatedEntryOf(kept[i]))
  }

  /** `thumbnails[k]?.url` for k = 0, 1, 2 and the last index. */
  function ThumbnailsOf(ts: seq<Thumbnail>): (r: Thumbnails)
    ensures r.standard == (if |ts| > 0 then Some(ts[0].url) else None)
    ensures r.medium == (if |ts| > 1 then Some(ts[1].url) else None)
    ensures r.high == (if |ts| > 2 then Some(ts[2].url) else None)
    ensures r.maxres == (if |ts| > 0 then Some(ts[|ts| - 1].url) else None)
    ensures r.maxres.Some? <==> r.standard.Some?
    ensures |ts| == 1 ==> r.maxres == r.standard && r.medium.None?
    ensures |ts| == 3 ==> r.maxres == r.high
  {
    Thumbnails(
      if |ts| > 0 then Some(ts[0].url) else None,
      if |ts| > 1 then Some(ts[1].url) else None,
      if |ts| > 2 then Some(ts[2].url) else None,
      if |ts| > 0 then Some(ts[|ts| - 1].url) else None)
  }

  /** The success body for a fetched video. `familySafe` is the negation of the collaborator's
      `isFamilySafe`, as the handler writes it. */
  function VideoInfoOf(info: Info): VideoInfo {
    var d := info.videoDetails;
    var a := d.author;
    VideoInfo(
      d.videoId, d.title, d.description,
      AuthorInfo(a.name, a.id, a.channelUrl, FirstThumbnail(a.thumbnails), a.verified == Some(true), a.subscriberCount),
      Duration(d.lengthSeconds, Helper.FormatDuration(Some(d.lengthSeconds))),
      d.viewCount, d.likes, d.uploadDate, d.publishDate,
      ThumbnailsOf(d.thumbnails),
      d.category, d.keywords.GetOr([]), d.isLiveContent, d.isPrivate, d.ageRestricted, !d.isFamilySafe,
      d.availableCountries,
      FormatListsOf(info.formats),
      RelatedEntries(info.relatedVideos),
      WatchUrl(d.videoId))
  }

  /** The catch block of GET `/:videoId`. */
  function ClassifyError(message: string, dev: bool): (f: Failure)
    ensures f.status == 404 <==> Contains(message, "Video unavailable")
    ensures f.status == 403 <==> !Contains(message, "Video unavailable") && Contains(message, "private")
    ensures f.status == 500 <==> !Contains(message, "Video unavailable") && !Contains(message, "private")
    ensures f.flagged && f.error == "Info retrieval failed"
    ensures f.details == (if dev then Some(message) else None)
  {
    if Contains(message, "Video unavailable") then
      Failure(404, true, "Info retrieval failed", Some("Video not found or unavailable"), DevDetails(dev, message))
    else if Contains(message, "private") then
      Failure(403, true, "Info retrieval failed", Some("Video is private"), DevDetails(dev, message))
    else
      Failure(500, true, "Info retrieval failed", Some("Unable to get video information"), DevDetails(dev, message))
  }

  function InvalidId(): Failure {
    BadRequest("Invalid video ID", "Please provide a valid YouTube video ID")
  }

  /** GET `/:videoId`. `getInfo` is the collaborator's answer for a URL; `dev` the development flag. */
  function HandleInfo(videoId: string, getInfo: string -> Result<Info>, dev: bool): (r: Reply<VideoInfo>)
    ensures !IsIdParam(videoId) <==> r == Fail(InvalidId())
    ensures IsIdParam(videoId) && getInfo(WatchUrl(videoId)).Err? ==>
              r == Fail(ClassifyError(getInfo(WatchUrl(videoId)).message, dev))
    ensures r.Success? <==> IsIdParam(videoId) && getInfo(WatchUrl(videoId)).Ok?
    ensures r.Success? ==>
              var info := getInfo(WatchUrl(videoId)).value;
              && r.data.formats == FormatListsOf(info.formats)
              && r.data.formats.total == |info.formats|
              && r.data.relatedVideos == RelatedEntries(info.relatedVideos)
              && |r.data.relatedVideos| <= MaxRelated
              && (info.relatedVideos.None? ==> r.data.relatedVideos == [])
              && r.data.id == info.videoDetails.videoId
              && r.data.duration.formatted == Helper.FormatDuration(Some(info.videoDetails.lengthSeconds))
              && r.data.url == WatchUrl(info.videoDetails.videoId)
              && r.data.thumbnails == ThumbnailsOf(info.videoDetails.thumbnails)
              && r.data.tags == (if info.videoDetails.keywords.Some? then info.videoDetails.keywords.value else [])
              && r.data.familySafe == !info.videoDetails.isFamilySafe
  {
    WatchUrlAccepted(videoId);
    var url := WatchUrl(videoId);
    if !Urls.ValidateYouTubeUrl(url) then Fail(InvalidId())
    else
      match getInfo(url)
      case Err(message) =>
        var f := ClassifyError(message, dev);
        assert f != InvalidId();
        Fail(f)
      case Ok(info) => Success(VideoInfoOf(info))
  }

  // ---------------------------------------------------------------------------------------
  // GET /:videoId/formats
  // ---------------------------------------------------------------------------------------

  datatype FormatEntry = FormatEntry(
    itag: int,
    kind: string,
    quality: string,
    container: Option<string>,
    size: Option<string>,
    bitrate: Option<nat>,
    fps: Option<nat>,
    resolution: Option<string>,
    audioBitrate: Option<nat>,
    mimeType: Option<string>)

  datatype FormatsData = FormatsData(data: seq<FormatEntry>, count: nat, videoId: string)

  /** The track classification of one format. */
  function TrackKind(f: Format): (k: string)
    ensures k == "video" <==> f.hasVideo && f.hasAudio
    ensures k == "audio" <==> f.hasAudio && !f.hasVideo
    ensures k == "video-only" <==> !f.hasAudio
  {
    if f.hasVideo && f.hasAudio then "video" else if f.hasAudio then "audio" else "video-only"
  }

  function FormatEntryOf(f: Format): (e: FormatEntry)
    ensures e.kind == TrackKind(f)
    ensures e.resolution.None? <==> !f.hasVideo
    ensures e.quality == VideoQualityLabel(f)
  {
    FormatEntry(f.itag, TrackKind(f), VideoQualityLabel(f), f.container, f.contentLength, f.bitrate, f.fps,
                if f.hasVideo then Some(Resolution(f)) else None, f.audioBitrate, f.mimeType)
  }

  /** The `type` query filter: `audio` keeps the audio-only family, `video` the audio+video
      family, and anything else (the default `all` included) keeps every format. */
  function SelectByType(formats: seq<Format>, kind: string): (r: seq<Format>)
    ensures kind == "audio" ==> forall i :: 0 <= i < |r| ==> r[i].hasAudio && !r[i].hasVideo
    ensures kind == "video" ==> forall i :: 0 <= i < |r| ==> r[i].hasAudio && r[i].hasVideo
    ensures kind == "audio" ==> forall f :: f in formats && f.hasAudio && !f.hasVideo ==> f in r
    ensures kind == "video" ==> forall f :: f in formats && f.hasAudio && f.hasVideo ==> f in r
    ensures kind != "audio" && kind != "video" ==> r == formats
    ensures kind == "audio" ==> r == FilterFormats(formats, AudioOnly)
    ensures kind == "video" ==> r == FilterFormats(formats, VideoAndAudio)
    ensures forall i :: 0 <= i < |r| ==> r[i] in formats
  {
    if kind == "audio" then FilterFormats(formats, AudioOnly)
    else if kind == "video" then FilterFormats(formats, VideoAndAudio)
    else formats
  }

  /** GET `/:videoId/formats`. No id check; any collaborator error becomes a 500 that carries
      the upstream message. */
  function HandleFormats(videoId: string, kind: Option<string>, getInfo: string -> Result<Info>): (r: Reply<FormatsData>)
    ensures getInfo(WatchUrl(videoId)).Err? ==>
              r == Fail(Failure(500, true, "Failed to get formats", Some(getInfo(WatchUrl(videoId)).message), None))
    ensures getInfo(WatchUrl(videoId)).Ok? ==> r.Success?
    ensures r.Success? ==>
              var selected := SelectByType(getInfo(WatchUrl(videoId)).value.formats, kind.GetOr("all"));
              && r.data.count == |r.data.data| == |selected|
              && r.data.videoId == videoId
              && forall i :: 0 <= i < |r.data.data| ==>
                   r.data.data[i].itag == selected[i].itag && r.data.data[i].kind == TrackKind(selected[i])
                   && (r.data.data[i].resolution.None? <==> !selected[i].hasVideo)
  {
    match getInfo(WatchUrl(videoId))
    case Err(message) => Fail(Failure(500, true, "Failed to get formats", Some(message), None))
    case Ok(info) =>
      var selected := SelectByType(info.formats, kind.GetOr("all"));
      var data := seq(|selected|, i requires 0 <= i < |selected| => FormatEntryOf(selected[i]));
      Success(FormatsData(data, |data|, videoId))
  }
}
