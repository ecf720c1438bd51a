# Social media downloader API — a Dafny model of its core

The service (`api/main.py`) is a FastAPI application that downloads a video or its audio track
from a social-media URL with `yt-dlp`, converts it with `ffmpeg`, and lets a client poll the
job until a download link appears. This project models the parts of that file that decide
*what* happens, leaving out the HTTP framework and the processes:

- **Format resolution** (`Formats`, on top of `Ranking`): how the extractor's raw `formats`
  records become at most eight video descriptors (one per resolution, tallest first) and at
  most three audio descriptors (one per raw `abr`, highest bitrate first, ties in source
  order), and the fixed minimal answer when extraction fails.
- **Format selectors and the download command** (`Downloader`): the `yt-dlp` selector built
  from a quality name or from a resolution/bitrate label the client picked, the audio-only
  selector, and the full `yt-dlp` argument vector of both job kinds.
- **Progress** (`Progress`): the worker's parser for lines of the downloader's output, which
  accepts `download:D/T` lines (which lines the downloader prints is part of the outside
  world's `Outcome`), the 5–45% download scale, and the clock-driven 60–90% transcoding scale.
- **Conversion** (`Transcode`): the audio-format defaulting and the `ffmpeg` argument vector
  of both job kinds, including the optional trim pair.
- **Jobs** (`Tasks`): the `active_tasks` store, the two submit routes, the status route, and
  each background worker as the sequence of records it writes for a given outcome of the
  outside world (downloader output and exit, the file the glob finds, the transcoder's ticks
  and exit).

Supporting modules: `Options` (`Option`), `Numeric` (`Min`, truncation toward zero as
Python's `int()` does on a float), `Strings` (the Python string operations the code uses:
`strip`, `startswith`, `in`, `replace(pat, "")`, `split` on one character, `str(n)` and
`int(s)` with its whitespace, sign and underscore rules) and `Paths` (the POSIX `pathlib`
join that names the download template and the converted file: `str(Path("./downloads") / name)`
and `str(Path("./processed") / name)`).

What the code does, where a reader might expect otherwise:

- Task statuses are `pending`, `downloading`, `processing`, `completed` and `failed`; every
  failure resets the progress figure to 0.
- Progress is not monotone: the worker sets 10% before the downloader prints anything, and a
  first accepted line reporting 0 bytes, should one arrive, sets it back to 5%
  (`Tasks.RunProgressCanDrop`).
- Deduplication keeps the *first* entry of each resolution or bitrate; later entries with
  more information are dropped. The lists are sorted by the one key only (no secondary key).
- Trim bounds are passed to `ffmpeg` unvalidated; trimming happens only when both are
  non-empty.
- An audio job whose format is not `mp3`, `m4a`, `ogg` or `wav` is turned into `mp3` by the
  route already, so the worker's own fallback branch (`api/main.py:859-863`) is never taken
  from the route; the model keeps that branch and proves it agrees with the route's defaulting
  (`Transcode.UnsupportedAudioIsMp3`, `Transcode.AudioArgvNormalized`).
- The video route passes the requested format to the worker unchecked, and the converted
  file is named with `pathlib`, which drops empty and `.` components: for the format `mp4/`
  the transcoder writes `processed/<id>.mp4` while the completed record links
  `/downloads/<id>.mp4/`. The link carries a trailing slash the file name does not; the
  static mount (`api/main.py:60`) normalises the requested path, so the link still reaches
  the file (`Transcode.TrailingSlashVideoFormat`, `Tasks.TrailingSlashInLink`).
- JSON `null` is passed through where `dict.get` meets it: a document whose `title` or
  `channel` is `null`, an audio record whose `ext` is `null`, or a video record whose
  `format_note` is `null` yields `null` in the answer, where a missing key yields the default
  (`Formats.Resolve`). A video record whose `ext` is `null` never reaches the answer: the
  container filter (`api/main.py:159`) drops it (`Formats.VideoDescriptorsOrdered`).
- `progress_hook` (`api/main.py:392-408`) is defined but never handed to anything, so its
  writes never happen and are not modelled.
- The `asyncio.TimeoutError` branch is modelled (`DownloadTimedOut`), although nothing in the
  code imposes a timeout on the download.

## Model

The two background workers (`api/main.py:364-665` for video, `api/main.py:668-958` for
audio) write the same sequence of records and differ only in their commands and messages, so
each is modelled once; rows below cite the video worker's lines, and the audio worker's
counterparts are its transcoder progress at 882-889 and its completion at 928-947.

| member | source | states |
|---|---|---|
| Strings.Strip | api/main.py:460 | `strip()` never lengthens a line and leaves no whitespace (Python's `isspace` set) at either end |
| Strings.StripIsTrimmedSlice | api/main.py:460 | `strip()` returns a contiguous slice of the line with only whitespace before and after it |
| Strings.StripUnpadded | api/main.py:460 | a line with no whitespace at either end is returned unchanged by `strip()` |
| Strings.ContainsAt | api/main.py:342 | `pat in s` holds exactly when `pat` occurs at some position of `s` |
| Strings.RemoveAllKeepsPrefix | api/main.py:183 | `replace(pat, "")` leaves a prefix in which `pat` cannot start untouched and works on the rest |
| Strings.JoinThenSplit | api/main.py:462-464 | splitting on a one-character separator recovers the parts that were joined with it, when no part contains it |
| Strings.SplitThenJoin | api/main.py:462-464 | joining the fields of a split with the separator restores the original string |
| Strings.ParseShowInt | api/main.py:183 | `int(str(n)) == n` for every integer (the inverse of the decimal form) |
| Strings.ShowIntInjective | api/main.py:161-167 | distinct heights give distinct resolution labels |
| Strings.ParseWithUnit | api/main.py:336-345 | for a unit starting with neither a digit nor `-`, `str(n)+unit` contains the unit and `int((str(n)+unit).replace(unit, ""))` is `n` |
| Ranking.Firsts | api/main.py:154-167 | the `seen`-set loop keeps exactly the first entry of each key among those passing the filter, in source order |
| Ranking.FirstOfKeyExists | api/main.py:154-167 | every entry passing the filter shares its key with an entry the `seen`-set loop keeps |
| Ranking.FirstsHaveDistinctKeys | api/main.py:164-167 | two different kept entries never share a key |
| Ranking.SortDescending | api/main.py:183 | the sorted list is a permutation of its input |
| Ranking.SortDescendingOrders | api/main.py:183 | the sorted list is non-increasing by key, and equal keys keep source order (stable `reverse=True` sort) |
| Ranking.Take | api/main.py:223-224 | `s[:n]` is the prefix of length `min(n, len(s))` |
| Ranking.DroppedIsOutranked | api/main.py:223-224 | an entry that `[:n]` cuts from an ordered list leaves exactly `n` entries, each ranked before it |
| Ranking.KeyEach | api/main.py:183 | sort keys can be computed for the picked entries exactly when each has one, and they are paired with their source indices |
| Ranking.TopFirsts | api/main.py:154-183 | dedupe, sort, cut: defined exactly when every kept entry has a sort key, at most `limit` long, every element a first occurrence with its own key, in rank order |
| Ranking.SortAndCut | api/main.py:182-224 | the sorted, cut list keeps at most `limit` of the ranked entries, all taken from them, in rank order |
| Ranking.Indices | api/main.py:174-179 | the descriptor list follows the ranked list position by position |
| Ranking.TopFirstsComplete | api/main.py:154-223 | every first occurrence either appears in the result or the result is full and every element outranks it |
| Ranking.TopFirstsOutranked | api/main.py:223-224 | an absent first occurrence is outranked by all `limit` entries kept |
| Formats.VideoSortKeyIsHeight | api/main.py:161-183 | the sort key read back from the label `"<h>p"` is the height `h` |
| Formats.VideoLabelInjective | api/main.py:161-167 | two labels are equal exactly when the heights are |
| Formats.VideoRanking | api/main.py:157-223 | at most eight entries, each the first video entry of its resolution, keyed by its height, in rank order |
| Formats.VideoPicks | api/main.py:157-223 | at most eight source indices, each a first video entry of its resolution |
| Formats.VideoPicksDescending | api/main.py:182-183 | the video list is strictly decreasing in height, so no resolution repeats |
| Formats.VideoPicksComplete | api/main.py:223 | a resolution passing the filter is left out only when eight taller resolutions fill the list |
| Formats.VideoRankingOutranks | api/main.py:182-223 | a first video entry missing from the ranking leaves it full, every kept entry ranked before it |
| Formats.VideoRankingTaller | api/main.py:164-183 | among first entries of distinct resolutions, being ranked before means being strictly taller |
| Formats.TallerFirst | api/main.py:164-183 | a first video entry ranked before another is strictly taller |
| Formats.AudioSortKeyIsRate | api/main.py:205-213 | the audio sort key is the bitrate the label shows, 0 for `"Unknown"` |
| Formats.AudioRanking | api/main.py:188-224 | at most three entries, each the first audio-only entry of its raw `abr`, keyed by its shown bitrate, in rank order |
| Formats.AudioPicks | api/main.py:188-224 | at most three source indices, each a first audio-only entry of its raw `abr` |
| Formats.AudioPicksOrdered | api/main.py:192-215 | the audio list never repeats a raw `abr` and is sorted by shown bitrate, highest first, ties in source order |
| Formats.AudioPicksComplete | api/main.py:224 | an audio stream passing the filter is left out only when three streams ranked before it fill the list |
| Formats.VideoDescriptorsOrdered | api/main.py:157-223 | the video descriptors carry `mp4` or `webm` (never `null`), never repeat a resolution, and their resolution keys strictly decrease |
| Formats.AudioDescriptorsOrdered | api/main.py:188-224 | the audio descriptors' bitrate keys can be read back and never increase |
| Formats.Resolve | api/main.py:154-251 | the answer echoes the URL; a failure gives the fixed record with `"best"` and `"128kbps"`; a parsed document gives title and channel as `dict.get(key, "Unknown")` reads them (the default for a missing key, `null` for a `null`), at most 8 video (mp4/webm, distinct, strictly decreasing resolution) and 3 audio (non-increasing bitrate) descriptors |
| Formats.ResolvedVideosAreFirsts | api/main.py:157-223 | every video descriptor in a parsed document's answer describes the first mp4/webm entry of its resolution |
| Formats.ResolvedVideosComplete | api/main.py:157-223 | a resolution some mp4/webm entry offers is missing from the answer only when the answer lists eight resolutions, all taller |
| Formats.ResolvedAudiosAreFirsts | api/main.py:188-224 | every audio descriptor in a parsed document's answer describes the first audio-only entry of its raw `abr` |
| Formats.ResolvedAudiosComplete | api/main.py:188-224 | the first audio-only entry of a raw `abr` is missing from the answer only when the answer lists three streams, each with a higher shown bitrate or the same bitrate earlier in the source |
| Downloader.QualitySelector | api/main.py:355-362 | the selector is always one of the four table entries: the named one, or `"best"`'s for an unknown name |
| Downloader.AudioSelector | api/main.py:340-349 | the audio half starts with `bestaudio`, holds no `/` (it is one alternative), and is plain `bestaudio` exactly when no bitrate can be read from the label |
| Downloader.FormatSelector | api/main.py:330-362 | with no readable height, the quality table's selector; with height `n`, exactly three `/`-alternatives in order: `bestvideo[height=n]+<audio half>`, `best[height=n]`, `best` |
| Downloader.AudioOnlySelector | api/main.py:687-711 | the audio job's selector is exactly three `/`-alternatives in order: the audio half, `bestaudio`, `best` |
| Downloader.HeightLabelSelected | api/main.py:333-351 | a label `"<n>p"` reads as height `n`, whatever the quality says, and the selector's first two alternatives ask for height `n` |
| Downloader.BitrateLabelSelected | api/main.py:342-347 | a label `"<b>kbps"` selects the window `[b-10, b+10]` |
| Downloader.OfferedResolutionSelected | api/main.py:333-351 | every resolution label the resolver offers, sent back, gives the three alternatives for its exact height |
| Downloader.OfferedBitrateSelected | api/main.py:342-347 | every bitrate label the resolver offers, sent back, selects the window around that bitrate; `"Unknown"` selects plain `bestaudio` |
| Downloader.FallbackResolutionSelected | api/main.py:333-362 | the fallback label `"best"` is not a height, so the quality table decides |
| Downloader.FallbackBitrateSelected | api/main.py:342-347 | the fallback label `"128kbps"` selects the window `[118, 138]` |
| Downloader.OutputTemplate | api/main.py:380-382 | the output template is `pathlib`'s join of `downloads` and `<id>.%(ext)s`: `downloads/<id>.%(ext)s` for an id without `/`, and for any id a path that starts at `downloads` or at the root |
| Downloader.DownloadArgv | api/main.py:411-431 | the `yt-dlp` command: 19 arguments (20 with `-x`), `-o` with the output template, `-f` with the selector, the URL last |
| Downloader.VideoDownloadArgv | api/main.py:411-431 | the video command passes `FormatSelector`'s result after `-f` and does not extract audio |
| Downloader.AudioDownloadArgv | api/main.py:699-721 | the audio command passes the audio-only selector after `-f` and asks for `-x` |
| Progress.DownloadPercent | api/main.py:465 | the download figure never exceeds 45, is at least 5 for a non-negative byte count, and is 45 once the total is reached |
| Progress.ZeroBytesIsFive | api/main.py:465 | nothing downloaded reads as 5% |
| Progress.DownloadPercentMonotone | api/main.py:465 | more bytes for the same total never show a smaller figure |
| Progress.ParseProgressField | api/main.py:461-465 | a field is accepted exactly when it splits on `/` into two non-empty parts that `int()` accepts with a positive total, and then yields `DownloadPercent` of those two numbers, at most 45 |
| Progress.ParseDownloadLine | api/main.py:459-467 | an accepted line starts with `download:` after stripping and yields `DownloadPercent(d, t)` for some `d` and positive `t`, so at most 45 |
| Progress.LineField | api/main.py:459-462 | for a field without `:` or trailing blank, the line `download:<field>` is judged by its field alone |
| Progress.DownloadLineRoundTrip | api/main.py:459-467 | the line `download:<d>/<t>` for a positive total parses to exactly `DownloadPercent(d, t)` |
| Progress.DownloadLineWithPadding | api/main.py:459-467 | the same line followed by any whitespace run (its newline) parses to the same percentage, since the line is stripped first |
| Progress.BareLineIgnored | api/main.py:458-459 | a bare `<d>/<t>` line without the `download:` prefix is ignored, whatever its numbers |
| Progress.NonPositiveTotalIgnored | api/main.py:464 | a line with a total of zero or less is ignored |
| Progress.UnknownTotalIgnored | api/main.py:464-468 | a line whose total is `NA` is ignored |
| Progress.ExtraFieldIgnored | api/main.py:463-468 | a line with three `/`-fields is ignored |
| Progress.TripleFields | api/main.py:463 | splitting `a/b/c` (no `/` in the parts) gives three fields, which the two-name unpacking rejects |
| Progress.ConvertPercent | api/main.py:590-597 | the transcoding figure never exceeds 90, is at least 60 for non-negative elapsed time, and is 90 once the expected duration has passed |
| Progress.ConvertPercentMonotone | api/main.py:590-597 | a later tick never shows a smaller figure |
| Numeric.Truncate | api/main.py:465 | `int()` of a float drops the fraction toward zero |
| Numeric.TruncateMonotone | api/main.py:590-597 | truncation never reverses an order |
| Transcode.NormalizeAudioFormat | api/main.py:305-308 | the audio format is always supported: a supported request is kept, anything else becomes `mp3` |
| Transcode.NormalizeIdempotent | api/main.py:305-308 | defaulting twice is defaulting once |
| Transcode.VideoCodecArgs | api/main.py:560-571 | mp3 gets the 192k stereo mp3 options, formats other than mp4/mp3/mkv get none, and no choice contains a trim flag |
| Transcode.AudioCodecArgs | api/main.py:850-861 | every audio choice starts with `-vn` (drops the video stream) and contains no trim flag |
| Transcode.AudioOutputName | api/main.py:840-863 | the audio output is named `<id>.<ext>` with the extension of the normalised format |
| Paths.Components | api/main.py:551 | the components `pathlib` keeps are parts of the path, none empty or `.`, and all of them when every part is a plain name |
| Paths.Root | api/main.py:551 | a path has an anchor (`/` or `//`) exactly when it starts with `/` |
| Paths.PlainJoin | api/main.py:551 | joining a plain directory with a plain name gives `dir/name` |
| Paths.TrailingSlashDropped | api/main.py:551 | joining a plain directory with `name/` gives `dir/name`: the trailing `/` is dropped |
| Paths.JoinPathStart | api/main.py:551 | a joined path is never empty and starts with the directory, or with `/` for an absolute name |
| Transcode.OutputPath | api/main.py:551 | the output path `str(PROCESSED_DIR / name)` starts with `processed` or `/` (so it is never a flag), and is `processed/<name>` for a plain name |
| Transcode.Argv | api/main.py:553-573 | the `ffmpeg` command: the fixed prefix and input, the trim pair exactly when both bounds are non-empty, the codec options, and the output path last; `-ss` and `-to` each appear exactly when trimming was asked (input and codec options holding neither) |
| Transcode.VideoArgv | api/main.py:550-573 | the video command writes `str(PROCESSED_DIR / "<id>.<format>")`, which is `processed/<id>.<format>` when that name is a plain component, and has `-ss` and `-to` exactly when trimming was asked |
| Transcode.AudioArgv | api/main.py:840-865 | the audio command writes `processed/<id>.<normalised format>` for a task id without `/`, has `-ss` and `-to` exactly when trimming was asked, and puts `-vn` first among the codec options |
| Transcode.OutputPathDropsSlash | api/main.py:551 | an output name ending in `/` is written without it |
| Transcode.TrailingSlashVideoFormat | api/main.py:550-573 | for the unchecked video format `mp4/` the output name is `<id>.mp4/`, but the command writes `processed/<id>.mp4` |
| Transcode.UnsupportedAudioIsMp3 | api/main.py:859-863 | an unsupported format builds the same command as `mp3` |
| Transcode.AudioArgvNormalized | api/main.py:850-863 | normalising the format before building the command changes nothing |
| Tasks.Submit | api/main.py:281-322 | a new pending record at 0% under the new id, every other job untouched; the reply says pending; the job carries the request unchanged except that an audio job's format is `NormalizeAudioFormat` of the requested one, a video job's format exactly the requested one |
| Tasks.GetStatus | api/main.py:324-328 | the 404 case exactly when the id is unknown, otherwise the stored record |
| Tasks.SubmitThenGet | api/main.py:324-328 | a poll right after submission finds the queued record |
| Tasks.FetchWrites | api/main.py:459-467 | downloader output writes at most one record per line, each keeping the status and showing at most 45% |
| Tasks.FetchWritesReported | api/main.py:459-467 | every record written shows a percentage that some output line parses to, with the matching `Downloading ... N%` message |
| Tasks.FetchWritesSilent | api/main.py:459-467 | output with no acceptable progress line writes nothing |
| Tasks.ConvertArgv | api/main.py:550-573 | the transcode command reads the found file and writes `str(PROCESSED_DIR / output_filename)` for the job's output name |
| Tasks.TickWrites | api/main.py:590-597 | one write per transcoder tick, each keeping the status, between 60% and 90% when time runs forward |
| Tasks.FetchFailure | api/main.py:513-540 | a failed download phase leaves a `failed` record at 0% with an error text |
| Tasks.ConvertResult | api/main.py:636-655 | after the transcoder the record is terminal |
| Tasks.FetchPhase | api/main.py:433-467 | the download phase writes the 5% start record, the 10% record, then per-line records, all `downloading` at most 45% |
| Tasks.ConvertPhase | api/main.py:543-597 | the transcoding phase writes the 50% record, then records all `processing` at most 90%, at least 50% when time runs forward |
| Tasks.Interim | api/main.py:372-627 | before its last write a run writes only non-terminal records without error or link, starting at 5% and never going back a phase |
| Tasks.Closing | api/main.py:636-665 | every run's last write is terminal |
| Tasks.Writes | api/main.py:364-665 | a run writes the start record first and a terminal record last, nothing terminal before |
| Tasks.Run | api/main.py:364-665 | a run makes the writes of `Writes`, runs the download command of its kind, and runs the transcode command on the found file exactly when the download exited 0 and a file was found; on success the record links `/downloads/<name>` and the command's last argument is `str(PROCESSED_DIR / <name>)` for the same name, `processed/<name>` when it is a plain component |
| Tasks.RunLast | api/main.py:636-665 | the record a run leaves behind is its closing record |
| Tasks.RunShape | api/main.py:364-665 | the writes are the download phase, then the transcoding phase only when the run proceeds, then the closing record |
| Tasks.RunPhaseAt | api/main.py:459-597 | any write before the closing one is `downloading` at most 45% inside the download phase and `processing` at most 90% after it |
| Tasks.RunCompletes | api/main.py:636-655 | a run ends `completed` exactly when download, file search and transcode all succeed, at 100% with the link `/downloads/<id>.<ext>`, an audio job's extension being supported |
| Tasks.RunFailsAtZero | api/main.py:513-665 | a run ends `failed` exactly when it does not succeed, always at 0%, with no error text only when no file was found |
| Tasks.RunFailureDetail | api/main.py:513-645 | the failed record by cause: non-zero download exit, missing file, and the transcoder's stderr or `"Unknown error"` |
| Tasks.RunPhasesOrdered | api/main.py:364-665 | the writes never go back a phase: downloading, then processing, then the end |
| Tasks.RunProgressBounds | api/main.py:459-597 | a downloading record shows at most 45%; a processing record at most 90%, and at least 50% when time runs forward |
| Tasks.RunProgressCanDrop | api/main.py:433-467 | when the first progress line reports 0 bytes, the record goes from 10% back to 5% |
| Tasks.FetchPhaseFirstLine | api/main.py:433-467 | a first line reporting 0 of a positive total writes 10% then 5% |
| Tasks.Finish | api/main.py:364-665 | after a run the poller finds its last record under the job's id and every other id as before |
| Tasks.TrailingSlashInLink | api/main.py:550-655 | a video job with format `mp4/` completes with the link `/downloads/<id>.mp4/`, with a trailing slash, while the transcoder wrote `processed/<id>.mp4` |
| Tasks.SubmitThenFinish | api/main.py:281-328 | submitting and running a job leaves a terminal record under the new id and every other job untouched |

## Left out

- The HTTP layer: routing, CORS, the static `/downloads` mount, request validation by
  pydantic (`HttpUrl`), and the `/` welcome route.
- Processes and concurrency: `subprocess`, `asyncio`, the thread pool and the `IS_WINDOWS`
  switch; the outside world's behaviour is an `Outcome` parameter. The two branches parse
  progress lines alike and differ only in decoding (next item), so they are modelled once.
- Decoding of the downloader's output. The `asyncio` branch decodes each line as UTF-8
  inside the per-line `try`, so an undecodable line is ignored like any other rejected line.
  The thread-pool branch (`IS_WINDOWS`) decodes while iterating the pipe, outside that `try`,
  so an undecodable byte ends the download with an exception and the job fails with
  `Processing failed` (`api/main.py:659-666`); in the model that run is an `Outcome` whose
  download ends in `DownloadCrashed`. Which branch runs, and whether bytes decode, is part of
  the `Outcome`, not computed.
- The downloader's real output format: the lines it prints are an unconstrained part of the
  `Outcome`. `yt-dlp` reads `--progress-template` as `[TYPES:]TEMPLATE`, so the leading
  `download:` of the template at `api/main.py:425` is most likely taken as the type and the
  printed lines are a bare `D/T`, which the parser ignores (`Progress.BareLineIgnored`); the
  model proves what happens for the lines the parser accepts, not that such lines arrive.
- The Windows path flavour of `pathlib`: `Paths` follows POSIX joining.
- `uuid.uuid4()` task ids: the id is a parameter of `Tasks.Submit`.
- Logging.
- The filesystem: the glob for the downloaded file (its first result is `Outcome.found`),
  unlinking the input, and the shutdown cleanup.
- The megabyte rounding of `filesize`: the size column is kept as the byte count it is
  computed from (`SizeFromBytes`).
- Floating point: the download and transcode shares are exact rational numbers here, where
  Python divides in binary floating point; `OverflowError` on huge byte counts is not modelled.
- Strings.ParseInt: only ASCII digits are accepted, where Python's `int()` also accepts other
  Unicode decimal digits; the 4300-digit limit of `int()` is not modelled.
- JSON details of the extractor's output: a `null` versus a missing key is distinguished
  (`Field`) for the keys read with a default (`title`, `channel`, `abr`, `ext`,
  `format_note`) and is one `None` for the keys read without one, where both give `None`; a
  `null` `formats` array, and non-integer heights or durations are not modelled.
- The `/video/info` route's own fallback (`api/main.py:269-278`): `get_video_info_async`
  already answers every failure with the fixed record, so that branch is unreachable and is
  not modelled; running the extractor itself is an `Extraction` parameter.
- `progress_hook` (`api/main.py:392-408`): defined but never used.
- Time: each transcoder tick is given as the seconds elapsed; the 60% lower bound is proved
  only for non-negative elapsed times.
- An exception raised after a successful transcode (while unlinking the input) is not
  modelled: the run then completes.
