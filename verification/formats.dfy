/**
 The format resolver behind `POST /video/info`: it turns the extractor's raw `formats`
 records into at most eight video descriptors (one per resolution, tallest first) and at
 most three audio descriptors (one per raw `abr`, highest bitrate first), and answers with a
 fixed minimal record when extraction or JSON parsing fails.
 */
module Formats {
  import opened Options
  import opened Strings
  import opened Ranking
  import opened Numeric

  /** A key of a JSON object read with a default: absent, present with `null`, or present
      with a value. */
  datatype Field<T> = Missing | Null | Given(value: T)

  /** `obj.get(key, default)`: the default for an absent key, `None` for a `null`. */
  function Get<T>(f: Field<T>, default: T): Option<T> {
    match f
    case Missing => Some(default)
    case Null => None
    case Given(v) => Some(v)
  }

  /** One element of the extractor's `formats` array, as far as the resolver reads it.
      An `Option` field is one read without a default, where a missing key and a JSON
      `null` both give `None`; `abr` (the bitrate in kbps), `ext` and `format_note` are
      read with a default. */
  datatype RawFormat = RawFormat(
    height: Option<int>,
    ext: Field<string>,
    formatNote: Field<string>,
    filesize: Option<int>,
    acodec: Option<string>,
    vcodec: Option<string>,
    abr: Field<real>)

  /** The extractor's JSON document (a missing `formats` key is the empty list). */
  datatype RawInfo = RawInfo(
    title: Field<string>,
    thumbnail: Option<string>,
    duration: Option<int>,
    channel: Field<string>,
    formats: seq<RawFormat>)

  /** Outcome of running the extractor: a parsed document, or any failure on the way
      (non-zero exit, timeout, unparsable JSON, other exception). */
  datatype Extraction = ExtractionFailed | Extracted(data: RawInfo)

  /** The size column: `"Unknown"`, or the megabyte label rounded from a byte count. */
  datatype SizeLabel = SizeUnknown | SizeFromBytes(bytes: int)

  /** A video descriptor; `None` is a JSON `null` passed through from the document. */
  datatype VideoFormat = VideoFormat(resolution: string, ext: Option<string>, formatNote: Option<string>, fileSize: SizeLabel)

  datatype AudioFormat = AudioFormat(bitrate: string, ext: Option<string>, fileSize: SizeLabel)

  /** The response body of the resolver. */
  datatype VideoInfo = VideoInfo(
    title: Option<string>,
    thumbnail: Option<string>,
    duration: Option<int>,
    channel: Option<string>,
    videoFormats: seq<VideoFormat>,
    audioFormats: seq<AudioFormat>,
    url: string)

  const MaxVideoFormats: nat := 8
  const MaxAudioFormats: nat := 3

  function SizeOf(f: RawFormat): SizeLabel {
    if f.filesize.Some? && f.filesize.value != 0 then SizeFromBytes(f.filesize.value) else SizeUnknown
  }

  // ---- video ----

  /** A truthy height and an `mp4` or `webm` container. */
  predicate IsVideo(f: RawFormat) {
    && f.height.Some? && f.height.value != 0
    && f.ext.Given? && f.ext.value in ["mp4", "webm"]
  }

  function Height(f: RawFormat): int {
    f.height.GetOr(0)
  }

  /** `f"{height}p"`, which is also the deduplication key (read only for entries passing `IsVideo`). */
  function VideoLabel(f: RawFormat): string {
    ShowInt(Height(f)) + "p"
  }

  function DescribeVideo(f: RawFormat): VideoFormat {
    VideoFormat(VideoLabel(f), Get(f.ext, "mp4"), Get(f.formatNote, ""), SizeOf(f))
  }

  /** The sort key: `int(resolution.replace("p", ""))`, `None` where `int()` raises. */
  function ResolutionKey(resolution: string): Option<int> {
    ParseInt(RemoveAll(resolution, "p"))
  }

  function VideoSortKey(f: RawFormat): Option<int> {
    ResolutionKey(VideoLabel(f))
  }

  /** The sort key recovers the height the label was made from. */
  lemma VideoSortKeyIsHeight(f: RawFormat)
    ensures VideoSortKey(f) == Some(Height(f))
  {
    ShowIntThenUnit(Height(f), "p");
    ParseShowInt(Height(f));
  }

  /** Two labels are equal exactly when the heights are. */
  lemma VideoLabelInjective(f: RawFormat, g: RawFormat)
    ensures VideoLabel(f) == VideoLabel(g) <==> Height(f) == Height(g)
  {
    if VideoLabel(f) == VideoLabel(g) {
      VideoSortKeyIsHeight(f);
      VideoSortKeyIsHeight(g);
    }
  }

  /** The video entries ranked as the resolver ranks them: first per label, tallest first, at most eight. */
  function VideoRanking(fs: seq<RawFormat>): (top: seq<Ranked>)
    ensures |top| <= MaxVideoFormats
    ensures RankOrdered(top)
    ensures forall k :: 0 <= k < |top| ==>
              IsFirst(fs, IsVideo, VideoLabel, top[k].index) && top[k].key == Height(fs[top[k].index])
  {
    forall i | IsFirst(fs, IsVideo, VideoLabel, i) ensures VideoSortKey(fs[i]).Some? {
      VideoSortKeyIsHeight(fs[i]);
    }
    var top := TopFirsts(fs, IsVideo, VideoLabel, VideoSortKey, MaxVideoFormats).value;
    forall k | 0 <= k < |top| ensures top[k].key == Height(fs[top[k].index]) {
      VideoSortKeyIsHeight(fs[top[k].index]);
    }
    top
  }

  lemma VideoRankingIsTop(fs: seq<RawFormat>)
    ensures var t := TopFirsts(fs, IsVideo, VideoLabel, VideoSortKey, MaxVideoFormats);
      t.Some? && t.value == VideoRanking(fs)
  {
    forall i | IsFirst(fs, IsVideo, VideoLabel, i) ensures VideoSortKey(fs[i]).Some? {
      VideoSortKeyIsHeight(fs[i]);
    }
  }

  /** Source indices of the video descriptors, in output order. */
  function VideoPicks(fs: seq<RawFormat>): (p: seq<nat>)
    ensures |p| <= MaxVideoFormats
    ensures forall k :: 0 <= k < |p| ==> p[k] < |fs| && IsFirst(fs, IsVideo, VideoLabel, p[k])
  {
    Indices(VideoRanking(fs))
  }

  /** The video list is sorted by height, strictly decreasing, so no resolution repeats. */
  lemma VideoPicksDescending(fs: seq<RawFormat>)
    ensures var p := VideoPicks(fs);
      forall a, b :: 0 <= a < b < |p| ==> Height(fs[p[a]]) > Height(fs[p[b]])
  {
    var top := VideoRanking(fs);
    var p := VideoPicks(fs);
    forall a, b | 0 <= a < b < |p| ensures Height(fs[p[a]]) > Height(fs[p[b]]) {
      assert Precedes(top[a], top[b]);
      FirstsHaveDistinctKeys(fs, IsVideo, VideoLabel, p[a], p[b]);
      VideoLabelInjective(fs[p[a]], fs[p[b]]);
    }
  }

  /** A resolution that passes the filter is left out only when eight taller ones fill the list. */
  lemma VideoPicksComplete(fs: seq<RawFormat>, i: int)
    requires IsFirst(fs, IsVideo, VideoLabel, i)
    requires i !in VideoPicks(fs)
    ensures |VideoPicks(fs)| == MaxVideoFormats
    ensures forall k :: 0 <= k < |VideoPicks(fs)| ==> Height(fs[VideoPicks(fs)[k]]) > Height(fs[i])
  {
    var top := VideoRanking(fs);
    var p := VideoPicks(fs);
    assert forall k :: 0 <= k < |p| ==> p[k] == top[k].index;
    VideoRankingOutranks(fs, i);
    VideoRankingTaller(fs, i);
  }

  /** The ranking-level form of `VideoPicksComplete`: a full list, every entry ranked first. */
  lemma VideoRankingOutranks(fs: seq<RawFormat>, i: int)
    requires IsFirst(fs, IsVideo, VideoLabel, i)
    requires forall x :: x in VideoRanking(fs) ==> x.index != i
    ensures |VideoRanking(fs)| == MaxVideoFormats
    ensures forall x :: x in VideoRanking(fs) ==> Precedes(x, Ranked(i, Height(fs[i])))
  {
    var top := VideoRanking(fs);
    VideoSortKeyIsHeight(fs[i]);
    VideoRankingIsTop(fs);
    forall k | 0 <= k < |top| ensures top[k].index != i {
      assert top[k] in top;
    }
    TopFirstsOutranked(fs, IsVideo, VideoLabel, VideoSortKey, MaxVideoFormats, i, Height(fs[i]));
  }

  /** Ranked first among distinct resolutions means strictly taller. */
  lemma VideoRankingTaller(fs: seq<RawFormat>, i: int)
    requires IsFirst(fs, IsVideo, VideoLabel, i)
    requires forall x :: x in VideoRanking(fs) ==> Precedes(x, Ranked(i, Height(fs[i])))
    ensures forall k :: 0 <= k < |VideoRanking(fs)| ==> Height(fs[VideoRanking(fs)[k].index]) > Height(fs[i])
  {
    var top := VideoRanking(fs);
    forall k | 0 <= k < |top| ensures Height(fs[top[k].index]) > Height(fs[i]) {
      assert top[k] in top;
      TallerFirst(fs, top[k].index, i);
    }
  }

  /** A first video entry ranked before another first video entry is strictly taller. */
  lemma TallerFirst(fs: seq<RawFormat>, j: int, i: int)
    requires IsFirst(fs, IsVideo, VideoLabel, j) && IsFirst(fs, IsVideo, VideoLabel, i)
    requires Precedes(Ranked(j, Height(fs[j])), Ranked(i, Height(fs[i])))
    ensures Height(fs[j]) > Height(fs[i])
  {
    FirstsHaveDistinctKeys(fs, IsVideo, VideoLabel, j, i);
    VideoLabelInjective(fs[j], fs[i]);
  }

  // ---- audio ----

  /** An audio-only stream: `acodec != "none"` (a missing codec counts) and `vcodec == "none"`. */
  predicate IsAudioOnly(f: RawFormat) {
    f.acodec != Some("none") && f.vcodec == Some("none")
  }

  /** `f.get("abr", 0)`, the deduplication key: an absent key reads as 0, `null` as `None`. */
  function AbrKey(f: RawFormat): Option<real> {
    Get(f.abr, 0.0)
  }

  predicate HasBitrate(f: RawFormat) {
    f.abr.Given? && f.abr.value != 0.0
  }

  /** The bitrate the label shows, and the sort key: `"Unknown"` counts as 0. */
  function Rate(f: RawFormat): int {
    if HasBitrate(f) then Truncate(f.abr.value) else 0
  }

  /** `f"{int(bitrate)}kbps"` when `abr` is truthy, otherwise `"Unknown"`. */
  function BitrateLabel(f: RawFormat): string {
    if HasBitrate(f) then ShowInt(Truncate(f.abr.value)) + "kbps" else "Unknown"
  }

  function DescribeAudio(f: RawFormat): AudioFormat {
    AudioFormat(BitrateLabel(f), Get(f.ext, "m4a"), SizeOf(f))
  }

  /** The sort key: 0 for `"Unknown"`, else `int(bitrate.replace("kbps", ""))`. */
  function BitrateKey(bitrate: string): Option<int> {
    if bitrate == "Unknown" then Some(0) else ParseInt(RemoveAll(bitrate, "kbps"))
  }

  function AudioSortKey(f: RawFormat): Option<int> {
    BitrateKey(BitrateLabel(f))
  }

  /** The sort key recovers the bitrate the label shows. */
  lemma AudioSortKeyIsRate(f: RawFormat)
    ensures AudioSortKey(f) == Some(Rate(f))
  {
    if HasBitrate(f) {
      var n := Truncate(f.abr.value);
      assert BitrateLabel(f)[|BitrateLabel(f)| - 1] == 's';
      ShowIntThenUnit(n, "kbps");
      ParseShowInt(n);
    }
  }

  /** The audio entries ranked as the resolver ranks them: first per raw `abr`, highest
      bitrate first with ties in source order, at most three. */
  function AudioRanking(fs: seq<RawFormat>): (top: seq<Ranked>)
    ensures |top| <= MaxAudioFormats
    ensures RankOrdered(top)
    ensures forall k :: 0 <= k < |top| ==>
              IsFirst(fs, IsAudioOnly, AbrKey, top[k].index) && top[k].key == Rate(fs[top[k].index])
  {
    forall i | IsFirst(fs, IsAudioOnly, AbrKey, i) ensures AudioSortKey(fs[i]).Some? {
      AudioSortKeyIsRate(fs[i]);
    }
    var top := TopFirsts(fs, IsAudioOnly, AbrKey, AudioSortKey, MaxAudioFormats).value;
    forall k | 0 <= k < |top| ensures top[k].key == Rate(fs[top[k].index]) {
      AudioSortKeyIsRate(fs[top[k].index]);
    }
    top
  }

  lemma AudioRankingIsTop(fs: seq<RawFormat>)
    ensures var t := TopFirsts(fs, IsAudioOnly, AbrKey, AudioSortKey, MaxAudioFormats);
      t.Some? && t.value == AudioRanking(fs)
  {
    forall i | IsFirst(fs, IsAudioOnly, AbrKey, i) ensures AudioSortKey(fs[i]).Some? {
      AudioSortKeyIsRate(fs[i]);
    }
  }

  /** Source indices of the audio descriptors, in output order. */
  function AudioPicks(fs: seq<RawFormat>): (p: seq<nat>)
    ensures |p| <= MaxAudioFormats
    ensures forall k :: 0 <= k < |p| ==> p[k] < |fs| && IsFirst(fs, IsAudioOnly, AbrKey, p[k])
  {
    Indices(AudioRanking(fs))
  }

  /** The audio list never repeats a raw `abr`, and is sorted by shown bitrate, highest
      first, with equal bitrates in source order. */
  lemma AudioPicksOrdered(fs: seq<RawFormat>)
    ensures var p := AudioPicks(fs);
      && (forall a, b :: 0 <= a < b < |p| ==> AbrKey(fs[p[a]]) != AbrKey(fs[p[b]]))
      && (forall a, b :: 0 <= a < b < |p| ==>
            Rate(fs[p[a]]) > Rate(fs[p[b]]) || (Rate(fs[p[a]]) == Rate(fs[p[b]]) && p[a] < p[b]))
  {
    var top := AudioRanking(fs);
    var p := AudioPicks(fs);
    forall a, b | 0 <= a < b < |p|
      ensures AbrKey(fs[p[a]]) != AbrKey(fs[p[b]])
      ensures Rate(fs[p[a]]) > Rate(fs[p[b]]) || (Rate(fs[p[a]]) == Rate(fs[p[b]]) && p[a] < p[b])
    {
      assert Precedes(top[a], top[b]);
      FirstsHaveDistinctKeys(fs, IsAudioOnly, AbrKey, p[a], p[b]);
    }
  }

  /** An audio stream that passes the filter is left out only when three streams that
      rank before it fill the list. */
  lemma AudioPicksComplete(fs: seq<RawFormat>, i: int)
    requires IsFirst(fs, IsAudioOnly, AbrKey, i)
    requires i !in AudioPicks(fs)
    ensures |AudioPicks(fs)| == MaxAudioFormats
    ensures forall k :: 0 <= k < |AudioPicks(fs)| ==>
              var j := AudioPicks(fs)[k];
              Rate(fs[j]) > Rate(fs[i]) || (Rate(fs[j]) == Rate(fs[i]) && j < i)
  {
    var top := AudioRanking(fs);
    var p := AudioPicks(fs);
    assert forall k :: 0 <= k < |top| ==> top[k].index != i by {
      forall k | 0 <= k < |top| ensures top[k].index != i {
        assert p[k] == top[k].index;
      }
    }
    AudioSortKeyIsRate(fs[i]);
    AudioRankingIsTop(fs);
    TopFirstsOutranked(fs, IsAudioOnly, AbrKey, AudioSortKey, MaxAudioFormats, i, Rate(fs[i]));
    forall k | 0 <= k < |p| ensures Rate(fs[p[k]]) > Rate(fs[i]) || (Rate(fs[p[k]]) == Rate(fs[i]) && p[k] < i) {
      assert Precedes(top[k], Ranked(i, Rate(fs[i])));
    }
  }

  // ---- the response ----

  /** The record returned when extraction or parsing fails. */
  function Fallback(url: string): VideoInfo {
    VideoInfo(Some("Video"), None, None, Some("Unknown"),
              [VideoFormat("best", Some("mp4"), Some(""), SizeUnknown)],
              [AudioFormat("128kbps", Some("m4a"), SizeUnknown)],
              url)
  }

  function DescribeVideos(fs: seq<RawFormat>, p: seq<nat>): (ds: seq<VideoFormat>)
    requires forall k :: 0 <= k < |p| ==> p[k] < |fs|
    ensures |ds| == |p| && forall k :: 0 <= k < |p| ==> ds[k] == DescribeVideo(fs[p[k]])
  {
    seq(|p|, k requires 0 <= k < |p| => DescribeVideo(fs[p[k]]))
  }

  function DescribeAudios(fs: seq<RawFormat>, p: seq<nat>): (ds: seq<AudioFormat>)
    requires forall k :: 0 <= k < |p| ==> p[k] < |fs|
    ensures |ds| == |p| && forall k :: 0 <= k < |p| ==> ds[k] == DescribeAudio(fs[p[k]])
  {
    seq(|p|, k requires 0 <= k < |p| => DescribeAudio(fs[p[k]]))
  }

  /** Every resolution label reads back as a height, and the heights strictly decrease. */
  predicate ResolutionsDescending(vs: seq<VideoFormat>) {
    forall a, b :: 0 <= a < b < |vs| ==>
      var ka := ResolutionKey(vs[a].resolution);
      var kb := ResolutionKey(vs[b].resolution);
      ka.Some? && kb.Some? && ka.value > kb.value
  }

  /** Every bitrate label reads back as a sort key, and the keys never increase. */
  predicate BitratesDescending(au: seq<AudioFormat>) {
    forall a, b :: 0 <= a < b < |au| ==>
      var ka := BitrateKey(au[a].bitrate);
      var kb := BitrateKey(au[b].bitrate);
      ka.Some? && kb.Some? && ka.value >= kb.value
  }

  /** The video descriptors: mp4 or webm, distinct resolutions, sort keys strictly decreasing. */
  lemma VideoDescriptorsOrdered(fs: seq<RawFormat>)
    ensures var vs := DescribeVideos(fs, VideoPicks(fs));
      && (forall k :: 0 <= k < |vs| ==> vs[k].ext.Some? && vs[k].ext.value in ["mp4", "webm"])
      && (forall a, b :: 0 <= a < b < |vs| ==> vs[a].resolution != vs[b].resolution)
      && ResolutionsDescending(vs)
  {
    var vp := VideoPicks(fs);
    var vs := DescribeVideos(fs, vp);
    VideoPicksDescending(fs);
    forall k | 0 <= k < |vs| ensures ResolutionKey(vs[k].resolution) == Some(Height(fs[vp[k]])) {
      VideoSortKeyIsHeight(fs[vp[k]]);
    }
    forall k | 0 <= k < |vs| ensures vs[k].ext.Some? && vs[k].ext.value in ["mp4", "webm"] {
      var f := fs[vp[k]];
      assert IsVideo(f);
      assert vs[k].ext == Some(f.ext.value);
    }
    forall a, b | 0 <= a < b < |vs|
      ensures ResolutionKey(vs[a].resolution).value > ResolutionKey(vs[b].resolution).value
    {
      assert Height(fs[vp[a]]) > Height(fs[vp[b]]);
    }
  }

  /** The audio descriptors: sort keys non-increasing. */
  lemma AudioDescriptorsOrdered(fs: seq<RawFormat>)
    ensures var au := DescribeAudios(fs, AudioPicks(fs));
      BitratesDescending(au)
  {
    var ap := AudioPicks(fs);
    var au := DescribeAudios(fs, ap);
    AudioPicksOrdered(fs);
    forall k | 0 <= k < |au| ensures BitrateKey(au[k].bitrate) == Some(Rate(fs[ap[k]])) {
      AudioSortKeyIsRate(fs[ap[k]]);
    }
  }

  /** The answer's lists are the descriptors of the picks. */
  lemma ResolvedLists(url: string, d: RawInfo)
    ensures Resolve(url, Extracted(d)).videoFormats == DescribeVideos(d.formats, VideoPicks(d.formats))
    ensures Resolve(url, Extracted(d)).audioFormats == DescribeAudios(d.formats, AudioPicks(d.formats))
  {
  }

  /** Each video descriptor in the answer describes the first entry of its resolution. */
  lemma ResolvedVideosAreFirsts(url: string, d: RawInfo)
    ensures var vs := Resolve(url, Extracted(d)).videoFormats;
      forall k :: 0 <= k < |vs| ==>
        exists i :: IsFirst(d.formats, IsVideo, VideoLabel, i) && vs[k] == DescribeVideo(d.formats[i])
  {
    ResolvedLists(url, d);
    VideosAreFirsts(d.formats);
  }

  lemma VideosAreFirsts(fs: seq<RawFormat>)
    ensures var vs := DescribeVideos(fs, VideoPicks(fs));
      forall k :: 0 <= k < |vs| ==> exists i :: IsFirst(fs, IsVideo, VideoLabel, i) && vs[k] == DescribeVideo(fs[i])
  {
    var p := VideoPicks(fs);
    var vs := DescribeVideos(fs, p);
    forall k | 0 <= k < |vs| ensures exists i :: IsFirst(fs, IsVideo, VideoLabel, i) && vs[k] == DescribeVideo(fs[i]) {
      assert IsFirst(fs, IsVideo, VideoLabel, p[k]) && vs[k] == DescribeVideo(fs[p[k]]);
    }
  }

  /** The resolution label reads back as a height above `h`. */
  predicate ResolutionAbove(resolution: string, h: int) {
    var key := ResolutionKey(resolution);
    key.Some? && key.value > h
  }

  /** A resolution some mp4/webm entry offers is missing from the answer only when eight
      taller resolutions fill the list. */
  lemma ResolvedVideosComplete(url: string, d: RawInfo, i: int)
    requires 0 <= i < |d.formats| && IsVideo(d.formats[i])
    requires forall k :: 0 <= k < |Resolve(url, Extracted(d)).videoFormats| ==>
               Resolve(url, Extracted(d)).videoFormats[k].resolution != VideoLabel(d.formats[i])
    ensures var vs := Resolve(url, Extracted(d)).videoFormats;
      && |vs| == MaxVideoFormats
      && forall k :: 0 <= k < |vs| ==> ResolutionAbove(vs[k].resolution, Height(d.formats[i]))
  {
    ResolvedLists(url, d);
    VideosComplete(d.formats, i);
  }

  lemma VideosComplete(fs: seq<RawFormat>, i: int)
    requires 0 <= i < |fs| && IsVideo(fs[i])
    requires var vs := DescribeVideos(fs, VideoPicks(fs));
      forall k :: 0 <= k < |vs| ==> vs[k].resolution != VideoLabel(fs[i])
    ensures var vs := DescribeVideos(fs, VideoPicks(fs));
      && |vs| == MaxVideoFormats
      && forall k :: 0 <= k < |vs| ==> ResolutionAbove(vs[k].resolution, Height(fs[i]))
  {
    var p := VideoPicks(fs);
    FirstOfKeyExists(fs, IsVideo, VideoLabel, i);
    var j :| IsFirst(fs, IsVideo, VideoLabel, j) && VideoLabel(fs[j]) == VideoLabel(fs[i]);
    VideoLabelInjective(fs[j], fs[i]);
    MissingLabelNotPicked(fs, j);
    VideoPicksComplete(fs, j);
    VideoKeysAreHeights(fs);
  }

  lemma MissingLabelNotPicked(fs: seq<RawFormat>, j: int)
    requires 0 <= j < |fs|
    requires var vs := DescribeVideos(fs, VideoPicks(fs));
      forall k :: 0 <= k < |vs| ==> vs[k].resolution != VideoLabel(fs[j])
    ensures j !in VideoPicks(fs)
  {
    var p := VideoPicks(fs);
    var vs := DescribeVideos(fs, p);
    forall k | 0 <= k < |p| ensures p[k] != j {
      assert vs[k].resolution == VideoLabel(fs[p[k]]);
    }
  }

  lemma VideoKeysAreHeights(fs: seq<RawFormat>)
    ensures var p := VideoPicks(fs);
      var vs := DescribeVideos(fs, p);
      forall k :: 0 <= k < |vs| ==> ResolutionKey(vs[k].resolution) == Some(Height(fs[p[k]]))
  {
    var p := VideoPicks(fs);
    var vs := DescribeVideos(fs, p);
    forall k | 0 <= k < |vs| ensures ResolutionKey(vs[k].resolution) == Some(Height(fs[p[k]])) {
      VideoSortKeyIsHeight(fs[p[k]]);
    }
  }

  /** Each audio descriptor in the answer describes the first entry of its raw `abr`. */
  lemma ResolvedAudiosAreFirsts(url: string, d: RawInfo)
    ensures var au := Resolve(url, Extracted(d)).audioFormats;
      forall k :: 0 <= k < |au| ==>
        exists i :: IsFirst(d.formats, IsAudioOnly, AbrKey, i) && au[k] == DescribeAudio(d.formats[i])
  {
    ResolvedLists(url, d);
    AudiosAreFirsts(d.formats);
  }

  lemma AudiosAreFirsts(fs: seq<RawFormat>)
    ensures var au := DescribeAudios(fs, AudioPicks(fs));
      forall k :: 0 <= k < |au| ==> exists i :: IsFirst(fs, IsAudioOnly, AbrKey, i) && au[k] == DescribeAudio(fs[i])
  {
    var p := AudioPicks(fs);
    var au := DescribeAudios(fs, p);
    forall k | 0 <= k < |au| ensures exists i :: IsFirst(fs, IsAudioOnly, AbrKey, i) && au[k] == DescribeAudio(fs[i]) {
      assert IsFirst(fs, IsAudioOnly, AbrKey, p[k]) && au[k] == DescribeAudio(fs[p[k]]);
    }
  }

  /** `a` describes a stream that ranks before stream `i`: a higher shown bitrate, or the
      same one earlier in the source. */
  ghost predicate DescribesEarlierRanked(fs: seq<RawFormat>, i: int, a: AudioFormat)
    requires 0 <= i < |fs|
  {
    exists j :: 0 <= j < |fs| && a == DescribeAudio(fs[j])
      && (Rate(fs[j]) > Rate(fs[i]) || (Rate(fs[j]) == Rate(fs[i]) && j < i))
  }

  /** The first audio stream of some raw `abr` is missing from the answer only when three
      streams that rank before it fill the list. */
  lemma ResolvedAudiosComplete(url: string, d: RawInfo, i: int)
    requires IsFirst(d.formats, IsAudioOnly, AbrKey, i)
    requires DescribeAudio(d.formats[i]) !in Resolve(url, Extracted(d)).audioFormats
    ensures var au := Resolve(url, Extracted(d)).audioFormats;
      && |au| == MaxAudioFormats
      && forall k :: 0 <= k < |au| ==> DescribesEarlierRanked(d.formats, i, au[k])
  {
    ResolvedLists(url, d);
    AudiosComplete(d.formats, i);
  }

  lemma AudiosComplete(fs: seq<RawFormat>, i: int)
    requires IsFirst(fs, IsAudioOnly, AbrKey, i)
    requires DescribeAudio(fs[i]) !in DescribeAudios(fs, AudioPicks(fs))
    ensures var au := DescribeAudios(fs, AudioPicks(fs));
      && |au| == MaxAudioFormats
      && forall k :: 0 <= k < |au| ==> DescribesEarlierRanked(fs, i, au[k])
  {
    var p := AudioPicks(fs);
    var au := DescribeAudios(fs, p);
    assert i !in p by {
      forall k | 0 <= k < |p| ensures p[k] != i {
        assert au[k] == DescribeAudio(fs[p[k]]);
      }
    }
    AudioPicksComplete(fs, i);
    forall k | 0 <= k < |au| ensures DescribesEarlierRanked(fs, i, au[k]) {
      var j := p[k];
      assert 0 <= j < |fs| && au[k] == DescribeAudio(fs[j]);
      assert Rate(fs[j]) > Rate(fs[i]) || (Rate(fs[j]) == Rate(fs[i]) && j < i);
    }
  }

  /** The resolver: the normalised format lists for a parsed document, the fixed minimal
      record for any failure. */
  function Resolve(url: string, extraction: Extraction): (r: VideoInfo)
    ensures r.url == url
    ensures 1 <= |r.videoFormats| || extraction.Extracted?
    ensures |r.videoFormats| <= MaxVideoFormats && |r.audioFormats| <= MaxAudioFormats
    ensures forall a, b :: 0 <= a < b < |r.videoFormats| ==> r.videoFormats[a].resolution != r.videoFormats[b].resolution
    ensures extraction.ExtractionFailed? ==>
              && r.title == Some("Video") && r.channel == Some("Unknown")
              && r.thumbnail == None && r.duration == None
              && r.videoFormats == [VideoFormat("best", Some("mp4"), Some(""), SizeUnknown)]
              && r.audioFormats == [AudioFormat("128kbps", Some("m4a"), SizeUnknown)]
    ensures extraction.Extracted? ==>
              var d := extraction.data;
              && r.title == Get(d.title, "Unknown") && r.channel == Get(d.channel, "Unknown")
              && r.thumbnail == d.thumbnail && r.duration == d.duration
              && (forall k :: 0 <= k < |r.videoFormats| ==> r.videoFormats[k].ext.Some? && r.videoFormats[k].ext.value in ["mp4", "webm"])
              && ResolutionsDescending(r.videoFormats)
              && BitratesDescending(r.audioFormats)
  {
    match extraction
    case ExtractionFailed => Fallback(url)
    case Extracted(d) =>
      VideoDescriptorsOrdered(d.formats);
      AudioDescriptorsOrdered(d.formats);
      var vs := DescribeVideos(d.formats, VideoPicks(d.formats));
      var au := DescribeAudios(d.formats, AudioPicks(d.formats));
      VideoInfo(Get(d.title, "Unknown"), d.thumbnail, d.duration, Get(d.channel, "Unknown"), vs, au, url)
  }
}
