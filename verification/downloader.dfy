/** The `yt-dlp` side of a job: the format selector built from the request, and the
    command line that runs the download. */
module Downloader {
  import opened Options
  import opened Strings
  import opened Formats
  import opened Paths

  /** Selector used for an unknown quality name. */
  const DefaultSelector := "best[ext=mp4]/best"

  /** The quality table consulted when no specific video format applies. */
  const QualitySelectors: map<string, string> := map[
    "best" := "best[ext=mp4]/best",
    "high" := "best[height<=1080][ext=mp4]/best[height<=1080]",
    "medium" := "best[height<=720][ext=mp4]/best[height<=720]",
    "low" := "best[height<=480][ext=mp4]/best[height<=480]"
  ]

  /** `format_selectors.get(quality, default)`: total, and always one of the table's entries. */
  function QualitySelector(quality: string): (r: string)
    ensures r in QualitySelectors.Values
    ensures quality in QualitySelectors ==> r == QualitySelectors[quality]
    ensures quality !in QualitySelectors ==> r == QualitySelectors["best"]
  {
    assert QualitySelectors["best"] == DefaultSelector;
    if quality in QualitySelectors then QualitySelectors[quality] else DefaultSelector
  }

  /** The height a `selected_video_format` asks for: `int(s.replace("p", ""))` on a
      non-empty value, `None` when absent, empty or when `int()` raises. */
  function RequestedHeight(selectedVideo: Option<string>): Option<int> {
    if Filled(selectedVideo) then ParseInt(RemoveAll(selectedVideo.value, "p")) else None
  }

  /** The bitrate a `selected_audio_format` asks for: only a value containing `kbps`
      counts, and `int()` must accept what is left once `kbps` is removed. */
  function RequestedBitrate(selectedAudio: Option<string>): Option<int> {
    if Filled(selectedAudio) && Contains(selectedAudio.value, "kbps")
    then ParseInt(RemoveAll(selectedAudio.value, "kbps"))
    else None
  }

  /** The `yt-dlp` filter accepting bitrates within 10 kbps of `b`. */
  function BitrateWindow(b: int): string {
    "[abr<=" + ShowInt(b + 10) + "][abr>=" + ShowInt(b - 10) + "]"
  }

  lemma WindowUnsplit(b: int)
    ensures '/' !in "bestaudio" + BitrateWindow(b)
  {
    var x, y := ShowInt(b + 10), ShowInt(b - 10);
    assert '/' !in x && '/' !in y;
    assert forall k :: 0 <= k < |"[abr<="| ==> "[abr<="[k] != '/';
    assert forall k :: 0 <= k < |"][abr>="| ==> "][abr>="[k] != '/';
    assert forall k :: 0 <= k < |"bestaudio"| ==> "bestaudio"[k] != '/';
    assert "bestaudio" + BitrateWindow(b) == "bestaudio" + "[abr<=" + x + "][abr>=" + y + "]";
  }

  /** The audio half of a selector: a window of 10 kbps either side of the requested
      bitrate, or plain `bestaudio`. It is a single alternative: no `/` in it. */
  function AudioSelector(selectedAudio: Option<string>): (r: string)
    ensures StartsWith(r, "bestaudio") && '/' !in r
    ensures RequestedBitrate(selectedAudio).None? <==> r == "bestaudio"
  {
    match RequestedBitrate(selectedAudio)
    case Some(b) =>
      assert ("bestaudio" + BitrateWindow(b))[..9] == "bestaudio";
      assert |"bestaudio" + BitrateWindow(b)| > 9;
      WindowUnsplit(b);
      "bestaudio" + BitrateWindow(b)
    case None => "bestaudio"
  }

  lemma HeightUnsplit(h: int, audio: string)
    requires '/' !in audio
    ensures '/' !in "bestvideo[height=" + ShowInt(h) + "]+" + audio
    ensures '/' !in "best[height=" + ShowInt(h) + "]"
  {
    assert '/' !in ShowInt(h);
    assert forall k :: 0 <= k < |"bestvideo[height="| ==> "bestvideo[height="[k] != '/';
    assert forall k :: 0 <= k < |"best[height="| ==> "best[height="[k] != '/';
    assert forall k :: 0 <= k < |"]+"| ==> "]+"[k] != '/';
  }

  /** `get_optimized_format_selector`: when the requested video format parses to a height,
      three alternatives in order (that exact height merged with the audio half, a single
      file of that height, then anything); otherwise the quality table. */
  function FormatSelector(quality: string, selectedVideo: Option<string>, selectedAudio: Option<string>): (r: string)
    ensures RequestedHeight(selectedVideo).None? ==> r == QualitySelector(quality)
    ensures RequestedHeight(selectedVideo).Some? ==>
              var n := ShowInt(RequestedHeight(selectedVideo).value);
              Split(r, '/') == ["bestvideo[height=" + n + "]+" + AudioSelector(selectedAudio), "best[height=" + n + "]", "best"]
  {
    match RequestedHeight(selectedVideo)
    case Some(h) =>
      var n := ShowInt(h);
      var merged := "bestvideo[height=" + n + "]+" + AudioSelector(selectedAudio);
      var single := "best[height=" + n + "]";
      HeightUnsplit(h, AudioSelector(selectedAudio));
      SplitThree(merged, single, "best", '/');
      merged + "/" + single + "/" + "best"
    case None => QualitySelector(quality)
  }

  /** The selector of an audio job: three alternatives, the audio half, then `bestaudio`,
      then `best`. */
  function AudioOnlySelector(selectedAudio: Option<string>): (r: string)
    ensures Split(r, '/') == [AudioSelector(selectedAudio), "bestaudio", "best"]
  {
    SplitThree(AudioSelector(selectedAudio), "bestaudio", "best", '/');
    AudioSelector(selectedAudio) + "/" + "bestaudio" + "/" + "best"
  }

  /** A label `"<N>p"` selects exactly height N, whatever the quality says. */
  lemma HeightLabelSelected(quality: string, n: int, selectedAudio: Option<string>)
    ensures RequestedHeight(Some(ShowInt(n) + "p")) == Some(n)
    ensures Split(FormatSelector(quality, Some(ShowInt(n) + "p"), selectedAudio), '/')
            == ["bestvideo[height=" + ShowInt(n) + "]+" + AudioSelector(selectedAudio), "best[height=" + ShowInt(n) + "]", "best"]
  {
    ParseWithUnit(n, "p");
  }

  /** A label `"<B>kbps"` selects the window [B - 10, B + 10]. */
  lemma BitrateLabelSelected(b: int)
    ensures RequestedBitrate(Some(ShowInt(b) + "kbps")) == Some(b)
    ensures AudioSelector(Some(ShowInt(b) + "kbps"))
            == "bestaudio" + BitrateWindow(b)
  {
    ParseWithUnit(b, "kbps");
  }

  /** Every resolution the resolver offers for a video entry, sent back as
      `selected_video_format`, pins the selector to that entry's height. */
  lemma OfferedResolutionSelected(f: RawFormat, quality: string, selectedAudio: Option<string>)
    ensures var n := ShowInt(Height(f));
            Split(FormatSelector(quality, Some(DescribeVideo(f).resolution), selectedAudio), '/')
            == ["bestvideo[height=" + n + "]+" + AudioSelector(selectedAudio), "best[height=" + n + "]", "best"]
  {
    HeightLabelSelected(quality, Height(f), selectedAudio);
  }

  /** Every bitrate label the resolver offers, sent back as `selected_audio_format`,
      selects a window around that entry's bitrate; `"Unknown"` selects plain `bestaudio`. */
  lemma OfferedBitrateSelected(f: RawFormat)
    ensures HasBitrate(f) ==>
              AudioSelector(Some(DescribeAudio(f).bitrate))
              == "bestaudio" + BitrateWindow(Rate(f))
    ensures !HasBitrate(f) ==> AudioSelector(Some(DescribeAudio(f).bitrate)) == "bestaudio"
  {
    if HasBitrate(f) {
      BitrateLabelSelected(Rate(f));
    } else {
      UnknownHasNoUnit();
    }
  }

  /** `"kbps" in "Unknown"` is false. */
  lemma UnknownHasNoUnit()
    ensures !Contains("Unknown", "kbps")
  {
    ContainsAt("Unknown", "kbps");
    forall k ensures !OccursAt("Unknown", "kbps", k) {
      if 0 <= k <= 3 {
        assert "Unknown"[k..k + 4][1] == "Unknown"[k + 1];
      }
    }
  }

  lemma ShowFallbackBitrate()
    ensures ShowInt(128) + "kbps" == "128kbps"
  {
    assert ShowNat(1) == "1";
    assert ShowNat(12) == "12";
    assert ShowNat(128) == "128";
  }

  lemma BestIsNotAHeight()
    ensures RequestedHeight(Some("best")) == None
  {
    assert RemoveAll("best", "p") == "best" by {
      assert RemoveAll("t", "p") == "t";
      assert RemoveAll("st", "p") == "st";
      assert RemoveAll("est", "p") == "est";
    }
    assert forall k :: 0 <= k < |"best"| ==> !IsDigit("best"[k]);
  }

  /** The fallback video descriptor `"best"` sent back is not a height, so the quality
      table decides the selector. */
  lemma FallbackResolutionSelected(quality: string, selectedAudio: Option<string>)
    ensures FormatSelector(quality, Some("best"), selectedAudio) == QualitySelector(quality)
  {
    BestIsNotAHeight();
  }

  /** The fallback audio descriptor `"128kbps"` sent back selects the window [118, 138]. */
  lemma FallbackBitrateSelected()
    ensures AudioSelector(Some("128kbps")) == "bestaudio" + BitrateWindow(128)
  {
    BitrateLabelSelected(128);
    ShowFallbackBitrate();
  }

  // ---- the download command ----

  const UserAgent := "Mozilla/5.0 (Windows NT 10.0; Win64; x64) AppleWebKit/537.36"
  const ProgressTemplate := "download:%(progress.downloaded_bytes)s/%(progress.total_bytes)s"

  /** `str(DOWNLOAD_DIR)` for `Path("./downloads")`. */
  const DownloadDir := "downloads"

  /** `str(DOWNLOAD_DIR / f"{task_id}.%(ext)s")`: the job's id under `downloads/`, extension
      chosen by `yt-dlp`. */
  function OutputTemplate(taskId: string): (path: string)
    ensures |path| > 0 && (path[0] == '/' || StartsWith(path, DownloadDir))
    ensures '/' !in taskId ==> path == DownloadDir + "/" + (taskId + ".%(ext)s")
  {
    var name := taskId + ".%(ext)s";
    JoinPathStart(DownloadDir, name);
    if '/' !in taskId then (TemplateNamePlain(taskId); PlainJoin(DownloadDir, name); JoinPath(DownloadDir, name))
    else JoinPath(DownloadDir, name)
  }

  lemma TemplateNamePlain(taskId: string)
    requires '/' !in taskId
    ensures Plain(taskId + ".%(ext)s")
  {
    var suffix := ".%(ext)s";
    assert forall k :: 0 <= k < |suffix| ==> suffix[k] != '/';
    assert |taskId + suffix| > 1;
  }

  /** The `yt-dlp` command line; an audio job adds `-x` right after the selector. */
  function DownloadArgv(taskId: string, url: string, selector: string, extractAudio: bool): (argv: seq<string>)
    ensures |argv| == if extractAudio then 20 else 19
    ensures argv[0] == "yt-dlp" && argv[|argv| - 1] == url
    ensures argv[9] == "-o" && argv[10] == OutputTemplate(taskId)
    ensures argv[11] == "-f" && argv[12] == selector
    ensures (argv[13] == "-x") == extractAudio
  {
    ["yt-dlp", "--no-playlist", "--no-warnings",
     "--user-agent", UserAgent,
     "--retries", "2", "--fragment-retries", "2",
     "-o", OutputTemplate(taskId),
     "-f", selector]
    + (if extractAudio then ["-x"] else [])
    + ["--newline", "--progress-template", ProgressTemplate,
       "--no-check-certificate", "--prefer-insecure", url]
  }

  /** The video job's command: quality table or exact height, no extraction. */
  function VideoDownloadArgv(taskId: string, url: string, quality: string,
                             selectedVideo: Option<string>, selectedAudio: Option<string>): (argv: seq<string>)
    ensures |argv| == 19 && argv[12] == FormatSelector(quality, selectedVideo, selectedAudio) && argv[13] != "-x"
  {
    DownloadArgv(taskId, url, FormatSelector(quality, selectedVideo, selectedAudio), false)
  }

  /** The audio job's command: the audio-only selector, with `-x`. */
  function AudioDownloadArgv(taskId: string, url: string, selectedAudio: Option<string>): (argv: seq<string>)
    ensures |argv| == 20 && argv[12] == AudioOnlySelector(selectedAudio) && argv[13] == "-x"
  {
    DownloadArgv(taskId, url, AudioOnlySelector(selectedAudio), true)
  }
}
