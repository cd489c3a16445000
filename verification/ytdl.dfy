/** The records the metadata collaborator (`ytdl-core`) hands to the handlers, taken as
    inputs, and the two format labels both the info and the download handler derive. */
module Ytdl {
  import opened Wrappers
  import opened Text
  import opened Decimal

  datatype Thumbnail = Thumbnail(url: string)

  /** One encoding of the video. Numeric fields arrive already parsed; `None` is `undefined`. */
  datatype Format = Format(
    itag: int,
    hasAudio: bool,
    hasVideo: bool,
    qualityLabel: Option<string>,
    quality: string,
    audioBitrate: Option<nat>,
    bitrate: Option<nat>,
    fps: Option<nat>,
    width: Option<nat>,
    height: Option<nat>,
    container: Option<string>,
    mimeType: Option<string>,
    contentLength: Option<string>,
    url: string)

  datatype Author = Author(
    name: string,
    id: string,
    channelUrl: string,
    thumbnails: Option<seq<Thumbnail>>,
    verified: Option<bool>,
    subscriberCount: Option<nat>)

  datatype VideoDetails = VideoDetails(
    videoId: string,
    title: string,
    description: Option<string>,
    author: Author,
    lengthSeconds: nat,
    viewCount: nat,
    likes: Option<nat>,
    uploadDate: string,
    publishDate: string,
    thumbnails: seq<Thumbnail>,
    category: Option<string>,
    keywords: Option<seq<string>>,
    isLiveContent: bool,
    isPrivate: bool,
    ageRestricted: bool,
    isFamilySafe: bool,
    availableCountries: seq<string>)

  /** A related video; `authorName` is `author?.name`. */
  datatype RelatedVideo = RelatedVideo(
    id: string,
    title: string,
    authorName: Option<string>,
    lengthSeconds: Option<nat>,
    viewCount: Option<string>,
    thumbnails: Option<seq<Thumbnail>>)

  /** What `getInfo` resolves to. */
  datatype Info = Info(videoDetails: VideoDetails, formats: seq<Format>, relatedVideos: Option<seq<RelatedVideo>>)

  /** The two `filterFormats` families the handlers ask for. */
  datatype Family = AudioOnly | VideoAndAudio

  /** Which formats a family admits, read from the track flags. */
  predicate Admits(family: Family, f: Format) {
    match family
    case AudioOnly => f.hasAudio && !f.hasVideo
    case VideoAndAudio => f.hasAudio && f.hasVideo
  }

  /** `filterFormats(formats, family)`: the admitted formats, in order. */
  function FilterFormats(formats: seq<Format>, family: Family): (r: seq<Format>)
    ensures |r| <= |formats|
    ensures forall i :: 0 <= i < |r| ==> Admits(family, r[i]) && r[i] in formats
    ensures forall f :: f in formats && Admits(family, f) ==> f in r
  {
    if |formats| == 0 then []
    else
      var rest := FilterFormats(formats[1..], family);
      assert forall f :: f in formats ==> f == formats[0] || f in formats[1..];
      if Admits(family, formats[0]) then [formats[0]] + rest else rest
  }

  /** Filtering distributes over concatenation: the admitted formats keep their source order
      and their multiplicity. */
  lemma {:induction false} FilterFormatsConcat(a: seq<Format>, b: seq<Format>, family: Family)
    ensures FilterFormats(a + b, family) == FilterFormats(a, family) + FilterFormats(b, family)
    decreases |a|
  {
    if |a| == 0 {
      assert a + b == b;
    } else {
      assert (a + b)[0] == a[0] && (a + b)[1..] == a[1..] + b;
      FilterFormatsConcat(a[1..], b, family);
    }
  }

  /** A single format is kept exactly when the family admits it. */
  lemma FilterFormatsSingle(f: Format, family: Family)
    ensures FilterFormats([f], family) == (if Admits(family, f) then [f] else [])
  {
    assert [f][1..] == [];
  }

  /** `${n}` for a number that may be `undefined`. */
  function NumberText(n: Option<nat>): string {
    match n
    case Some(v) => NatToString(v)
    case None => "undefined"
  }

  /** `audioBitrate ? `${audioBitrate}kbps` : 'unknown'`. */
  function AudioQualityLabel(bitrate: Option<nat>): (q: string)
    ensures q == "unknown" <==> bitrate.None? || bitrate.value == 0
  {
    if bitrate.Some? && bitrate.value != 0 then
      var q := NatToString(bitrate.value) + "kbps";
      assert q[|q| - 1] == 's' != "unknown"[6];
      q
    else "unknown"
  }

  /** Reads a `<n>kbps` label back. */
  function ParseKbps(q: string): Option<nat> {
    if |q| > 4 && q[|q| - 4..] == "kbps" && AllDigits(q[..|q| - 4]) then Some(DigitsValue(q[..|q| - 4]))
    else None
  }

  /** The audio quality label carries the bitrate: it reads back as the bitrate when there is
      one, and is not a `kbps` label otherwise. */
  lemma AudioQualityRoundTrip(bitrate: Option<nat>)
    ensures ParseKbps(AudioQualityLabel(bitrate)) == (if bitrate.Some? && bitrate.value != 0 then bitrate else None)
  {
    var q := AudioQualityLabel(bitrate);
    if bitrate.Some? && bitrate.value != 0 {
      var d := NatToString(bitrate.value);
      assert q[|q| - 4..] == "kbps" && q[..|q| - 4] == d;
      NatToStringRoundTrip(bitrate.value);
    } else {
      assert q == "unknown";
      assert q[|q| - 4..] == "nown";
    }
  }

  /** `qualityLabel || quality`. */
  function VideoQualityLabel(f: Format): (q: string)
    ensures IsTruthy(f.qualityLabel) ==> q == f.qualityLabel.value
    ensures !IsTruthy(f.qualityLabel) ==> q == f.quality
  {
    OrElse(f.qualityLabel, f.quality)
  }

  /** `${width}x${height}`. */
  function Resolution(f: Format): string {
    NumberText(f.width) + "x" + NumberText(f.height)
  }
}
