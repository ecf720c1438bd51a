/** The job store (`active_tasks`): a map from task id to the record pollers read, the
    two routes that create records, the status route that reads them, and the background
    worker, reduced to the sequence of records it writes for given outcomes of the
    download and the transcode. */
module Tasks {
  import opened Options
  import opened Strings
  import opened Progress
  import opened Downloader
  import opened Transcode
  import opened Paths

  datatype Status = Pending | Downloading | Processing | Completed | Failed

  /** The record a poller sees. `error` and `downloadUrl` are keys present only on some
      records. */
  datatype TaskRecord = TaskRecord(
    status: Status,
    progress: int,
    message: string,
    error: Option<string>,
    downloadUrl: Option<string>)

  type Store = map<string, TaskRecord>

  datatype Kind = Video | Audio

  predicate IsTerminal(s: Status) {
    s == Completed || s == Failed
  }

  /** Phase order: queued, fetching, converting, finished. */
  function Rank(s: Status): nat {
    match s
    case Pending => 0
    case Downloading => 1
    case Processing => 2
    case Completed => 3
    case Failed => 3
  }

  // ---- the routes ----

  /** The body of a process request. */
  datatype Request = Request(
    url: string,
    format: string,
    quality: string,
    trimStart: Option<string>,
    trimEnd: Option<string>,
    selectedVideo: Option<string>,
    selectedAudio: Option<string>)

  /** What the route hands to the background worker. */
  datatype Job = Job(taskId: string, kind: Kind, request: Request)

  /** The route's reply. */
  datatype Reply = Reply(taskId: string, status: string, message: string)

  datatype Submission = Submission(store: Store, reply: Reply, job: Job)

  function QueuedMessage(kind: Kind): string {
    match kind
    case Video => "Task queued"
    case Audio => "Audio task queued"
  }

  /** `POST /video/process` and `POST /audio/process`: a pending record under the new id
      (the id generator is a parameter), and a job for the worker; an audio job's format
      is defaulted to a supported container first. */
  function Submit(store: Store, taskId: string, kind: Kind, request: Request): (s: Submission)
    ensures taskId in s.store && s.store[taskId].status == Pending && s.store[taskId].progress == 0
    ensures s.store[taskId].error == None && s.store[taskId].downloadUrl == None
    ensures forall id :: id in store && id != taskId ==> id in s.store && s.store[id] == store[id]
    ensures s.store.Keys == store.Keys + {taskId}
    ensures s.reply.taskId == taskId && s.reply.status == "pending"
    ensures s.job.taskId == taskId && s.job.kind == kind
    ensures s.job.request.format == if kind == Audio then NormalizeAudioFormat(request.format) else request.format
    ensures kind == Audio ==> s.job.request.format in AudioFormats
    ensures s.job.request == request.(format := s.job.request.format)
  {
    var record := TaskRecord(Pending, 0, QueuedMessage(kind), None, None);
    match kind
    case Video =>
      Submission(store[taskId := record], Reply(taskId, "pending", "Video processing started"), Job(taskId, kind, request))
    case Audio =>
      var job := Job(taskId, kind, request.(format := NormalizeAudioFormat(request.format)));
      Submission(store[taskId := record], Reply(taskId, "pending", "Audio processing started"), job)
  }

  datatype Lookup = NotFound | Found(record: TaskRecord)

  /** `GET /task/{task_id}`: the stored record, or the 404 case. */
  function GetStatus(store: Store, taskId: string): (r: Lookup)
    ensures r.NotFound? <==> taskId !in store
    ensures r.Found? ==> taskId in store && r.record == store[taskId]
  {
    if taskId in store then Found(store[taskId]) else NotFound
  }

  /** A poll right after submission finds the queued record, never the 404 case. */
  lemma SubmitThenGet(store: Store, taskId: string, kind: Kind, request: Request)
    ensures GetStatus(Submit(store, taskId, kind, request).store, taskId)
            == Found(TaskRecord(Pending, 0, QueuedMessage(kind), None, None))
  {
  }

  // ---- the worker's messages ----

  function StartMessage(kind: Kind): string {
    match kind
    case Video => "Starting download..."
    case Audio => "Starting audio download..."
  }

  function FetchMessage(kind: Kind): string {
    match kind
    case Video => "Downloading video..."
    case Audio => "Downloading audio..."
  }

  /** `f"Downloading video... {percent}%"` and its audio twin. */
  function FetchPercentMessage(kind: Kind, p: int): string {
    FetchMessage(kind) + " " + ShowInt(p) + "%"
  }

  function DownloadFailedMessage(kind: Kind): string {
    match kind
    case Video => "Download failed"
    case Audio => "Audio download failed"
  }

  function TimeoutError(kind: Kind): string {
    match kind
    case Video => "Download took too long"
    case Audio => "Audio download took too long"
  }

  function NoFileMessage(kind: Kind): string {
    DownloadFailedMessage(kind) + " - no file found"
  }

  function ProcessingMessage(kind: Kind): string {
    match kind
    case Video => "Processing video..."
    case Audio => "Processing audio..."
  }

  function ConvertingMessage(kind: Kind): string {
    match kind
    case Video => "Converting video format..."
    case Audio => "Converting audio format..."
  }

  /** `f"Processing video... {progress}%"` and its audio twin. */
  function ConvertPercentMessage(kind: Kind, p: int): string {
    ProcessingMessage(kind) + " " + ShowInt(p) + "%"
  }

  function ProcessingFailedMessage(kind: Kind): string {
    match kind
    case Video => "Processing failed"
    case Audio => "Audio processing failed"
  }

  function ReadyMessage(kind: Kind): string {
    match kind
    case Video => "Ready for download"
    case Audio => "Audio ready for download"
  }

  function Budget(kind: Kind): real {
    match kind
    case Video => VideoBudget
    case Audio => AudioBudget
  }

  // ---- the worker ----

  /** How the downloader ended: its exit code, the timeout branch, or an exception
      (carrying `str(e)`). */
  datatype DownloadEnd = DownloadExited(code: int) | DownloadTimedOut | DownloadCrashed(reason: string)

  /** How the transcoder ended: exit code with decoded stderr, or an exception. */
  datatype ConvertEnd = ConvertExited(code: int, stderr: string) | ConvertCrashed(reason: string)

  /** Everything the outside world decides about one run: the downloader's stdout lines,
      how it ended, the first file the glob found, the seconds elapsed at each transcoder
      tick, and how the transcoder ended. */
  datatype Outcome = Outcome(
    lines: seq<string>,
    download: DownloadEnd,
    found: Option<string>,
    ticks: seq<real>,
    convert: ConvertEnd)

  /** What a run does: the records it writes in order, the download command, and the
      transcode command when it gets that far. */
  datatype Work = Work(writes: seq<TaskRecord>, downloadArgv: seq<string>, convertArgv: Option<seq<string>>)

  /** The members of `[x] + xs` are `x` and the members of `xs`. */
  lemma ConsMembers<T>(x: T, xs: seq<T>)
    ensures forall r :: r in [x] + xs ==> r == x || r in xs
  {
  }

  /** `r` shows a percentage that one of `lines` reports, and says so in its message. */
  ghost predicate Reported(kind: Kind, lines: seq<string>, r: TaskRecord) {
    && r.message == FetchPercentMessage(kind, r.progress)
    && exists l :: l in lines && ParseDownloadLine(l) == Some(r.progress)
  }

  /** No line of `lines` is a progress line. */
  ghost predicate Silent(lines: seq<string>) {
    forall l :: l in lines ==> ParseDownloadLine(l).None?
  }

  /** What the rest of the output reports, the whole output reports. */
  lemma ReportedByTail(kind: Kind, lines: seq<string>, rs: seq<TaskRecord>)
    requires |lines| > 0 && forall r :: r in rs ==> Reported(kind, lines[1..], r)
    ensures forall r :: r in rs ==> Reported(kind, lines, r)
  {
    forall r | r in rs ensures Reported(kind, lines, r) {
      var l :| l in lines[1..] && ParseDownloadLine(l) == Some(r.progress);
      assert l in lines;
    }
  }

  /** The writes caused by the downloader's stdout: one per line the parser accepts, the
      other lines leave the record alone. */
  function FetchWrites(kind: Kind, current: TaskRecord, lines: seq<string>): (ws: seq<TaskRecord>)
    ensures |ws| <= |lines|
    ensures forall r :: r in ws ==>
              && r.status == current.status && r.progress <= 45
              && r.error == current.error && r.downloadUrl == current.downloadUrl
    decreases |lines|
  {
    if |lines| == 0 then []
    else match ParseDownloadLine(lines[0])
      case None => FetchWrites(kind, current, lines[1..])
      case Some(p) =>
        var next := current.(progress := p, message := FetchPercentMessage(kind, p));
        var rest := FetchWrites(kind, next, lines[1..]);
        ConsMembers(next, rest);
        [next] + rest
  }

  /** Each write of the download phase shows a percentage some line of the output
      reports, in the message as well. */
  lemma {:induction false} FetchWritesReported(kind: Kind, current: TaskRecord, lines: seq<string>)
    ensures forall r :: r in FetchWrites(kind, current, lines) ==> Reported(kind, lines, r)
    decreases |lines|
  {
    if |lines| > 0 {
      var o := ParseDownloadLine(lines[0]);
      if o.None? {
        FetchWritesReported(kind, current, lines[1..]);
        ReportedByTail(kind, lines, FetchWrites(kind, current, lines[1..]));
      } else {
        var next := current.(progress := o.value, message := FetchPercentMessage(kind, o.value));
        var rest := FetchWrites(kind, next, lines[1..]);
        assert FetchWrites(kind, current, lines) == [next] + rest;
        FetchWritesReported(kind, next, lines[1..]);
        ReportedByTail(kind, lines, rest);
        assert lines[0] in lines;
        assert Reported(kind, lines, next);
        ConsMembers(next, rest);
      }
    }
  }

  /** Output without a progress line writes nothing. */
  lemma {:induction false} FetchWritesSilent(kind: Kind, current: TaskRecord, lines: seq<string>)
    requires Silent(lines)
    ensures FetchWrites(kind, current, lines) == []
    decreases |lines|
  {
    if |lines| > 0 {
      assert lines[0] in lines;
      assert Silent(lines[1..]) by {
        forall l | l in lines[1..] ensures ParseDownloadLine(l).None? {
          assert l in lines;
        }
      }
      FetchWritesSilent(kind, current, lines[1..]);
    }
  }

  /** The writes of the transcoder's ticks: one per tick, 60% to 90% by elapsed time. */
  function TickWrites(kind: Kind, current: TaskRecord, ticks: seq<real>): (ws: seq<TaskRecord>)
    ensures |ws| == |ticks|
    ensures forall r :: r in ws ==>
              && r.status == current.status && r.progress <= 90
              && r.error == current.error && r.downloadUrl == current.downloadUrl
    ensures (forall t :: t in ticks ==> t >= 0.0) ==> forall r :: r in ws ==> 60 <= r.progress
    decreases |ticks|
  {
    if |ticks| == 0 then []
    else
      var p := ConvertPercent(ticks[0], Budget(kind));
      var next := current.(progress := p, message := ConvertPercentMessage(kind, p));
      var rest := TickWrites(kind, next, ticks[1..]);
      ConsMembers(next, rest);
      assert forall t :: t in ticks[1..] ==> t in ticks;
      assert ticks[0] in ticks;
      [next] + rest
  }

  /** The file name the converted output gets. */
  function OutputName(job: Job): string {
    match job.kind
    case Video => VideoOutputName(job.taskId, job.request.format)
    case Audio => AudioOutputName(job.taskId, job.request.format)
  }

  /** The command that fetches the media. */
  function FetchArgv(job: Job): seq<string> {
    var r := job.request;
    match job.kind
    case Video => VideoDownloadArgv(job.taskId, r.url, r.quality, r.selectedVideo, r.selectedAudio)
    case Audio => AudioDownloadArgv(job.taskId, r.url, r.selectedAudio)
  }

  /** The command that converts the fetched file `input`: it writes to the output name
      under the processed directory. */
  function ConvertArgv(job: Job, input: string): (argv: seq<string>)
    ensures |argv| >= 8 && argv[..7] == Prefix + [input]
    ensures argv[|argv| - 1] == OutputPath(OutputName(job))
  {
    var r := job.request;
    match job.kind
    case Video => VideoArgv(input, r.trimStart, r.trimEnd, job.taskId, r.format)
    case Audio => AudioArgv(input, r.trimStart, r.trimEnd, job.taskId, r.format)
  }

  /** The record a run ends with once the file was found: completed with the link to the
      converted file, or failed with the transcoder's complaint. */
  function ConvertResult(job: Job, end: ConvertEnd): (r: TaskRecord)
    ensures IsTerminal(r.status)
  {
    var kind := job.kind;
    match end
    case ConvertExited(code, stderr) =>
      if code == 0 then TaskRecord(Completed, 100, ReadyMessage(kind), None, Some("/downloads/" + OutputName(job)))
      else TaskRecord(Failed, 0, ProcessingFailedMessage(kind), Some(if stderr == "" then "Unknown error" else stderr), None)
    case ConvertCrashed(reason) =>
      TaskRecord(Failed, 0, ProcessingFailedMessage(kind), Some(reason), None)
  }

  /** The record a run ends with when the download phase stops it. */
  function FetchFailure(kind: Kind, end: DownloadEnd): (r: TaskRecord)
    requires end != DownloadExited(0)
    ensures r.status == Failed && r.progress == 0 && r.error.Some?
  {
    match end
    case DownloadExited(_) =>
      TaskRecord(Failed, 0, DownloadFailedMessage(kind), Some("Process exited with non-zero code"), None)
    case DownloadTimedOut =>
      TaskRecord(Failed, 0, "Download timeout", Some(TimeoutError(kind)), None)
    case DownloadCrashed(reason) =>
      TaskRecord(Failed, 0, ProcessingFailedMessage(kind), Some(reason), None)
  }

  /** The writes of the download phase: the start record, the switch to 10%, then one
      write per accepted progress line. */
  function FetchPhase(kind: Kind, lines: seq<string>): (ws: seq<TaskRecord>)
    ensures 2 <= |ws| <= 2 + |lines|
    ensures ws[0] == TaskRecord(Downloading, 5, StartMessage(kind), None, None)
    ensures ws[1] == TaskRecord(Downloading, 10, FetchMessage(kind), None, None)
    ensures forall r :: r in ws ==>
              r.status == Downloading && r.progress <= 45 && r.error == None && r.downloadUrl == None
  {
    var start := TaskRecord(Downloading, 5, StartMessage(kind), None, None);
    var fetching := start.(progress := 10, message := FetchMessage(kind));
    [start, fetching] + FetchWrites(kind, fetching, lines)
  }

  /** The writes of the transcoding phase: the processing record at 50%, the switch to
      60%, then one write per tick. */
  function ConvertPhase(kind: Kind, ticks: seq<real>): (ws: seq<TaskRecord>)
    ensures |ws| == 2 + |ticks|
    ensures ws[0] == TaskRecord(Processing, 50, ProcessingMessage(kind), None, None)
    ensures forall r :: r in ws ==>
              r.status == Processing && r.progress <= 90 && r.error == None && r.downloadUrl == None
    ensures (forall t :: t in ticks ==> t >= 0.0) ==> forall r :: r in ws ==> 50 <= r.progress
  {
    var processing := TaskRecord(Processing, 50, ProcessingMessage(kind), None, None);
    var converting := processing.(progress := 60, message := ConvertingMessage(kind));
    [processing, converting] + TickWrites(kind, converting, ticks)
  }

  /** The run gets past the download phase: exit code 0 and a file on disk. */
  predicate Proceeds(outcome: Outcome) {
    outcome.download == DownloadExited(0) && outcome.found.Some?
  }

  /** The non-terminal writes of a run: the download phase, then the transcoding phase
      when the run gets that far. */
  function Interim(kind: Kind, outcome: Outcome): (ws: seq<TaskRecord>)
    ensures |ws| >= 2
    ensures ws[0] == TaskRecord(Downloading, 5, StartMessage(kind), None, None)
    ensures forall r :: r in ws ==> !IsTerminal(r.status) && r.error == None && r.downloadUrl == None
    ensures PhaseOrdered(ws)
  {
    var fetched := FetchPhase(kind, outcome.lines);
    SameRankOrdered(fetched, 1);
    if Proceeds(outcome) then
      var converted := ConvertPhase(kind, outcome.ticks);
      SameRankOrdered(converted, 2);
      ConcatOrdered(fetched, converted, 2);
      fetched + converted
    else fetched
  }

  /** The terminal write of a run. */
  function Closing(job: Job, outcome: Outcome): (r: TaskRecord)
    ensures IsTerminal(r.status)
  {
    if outcome.download != DownloadExited(0) then FetchFailure(job.kind, outcome.download)
    else if outcome.found.None? then TaskRecord(Failed, 0, NoFileMessage(job.kind), None, None)
    else ConvertResult(job, outcome.convert)
  }

  /** The records a run writes to the job's entry, in order: the start record first, a
      terminal record last, and nothing terminal before it. */
  function Writes(job: Job, outcome: Outcome): (ws: seq<TaskRecord>)
    ensures |ws| >= 3
    ensures ws[0] == TaskRecord(Downloading, 5, StartMessage(job.kind), None, None)
    ensures IsTerminal(ws[|ws| - 1].status)
    ensures forall r :: r in ws[..|ws| - 1] ==> !IsTerminal(r.status)
  {
    var ws := Interim(job.kind, outcome) + [Closing(job, outcome)];
    assert ws[..|ws| - 1] == Interim(job.kind, outcome);
    ws
  }

  /** `download_and_process_video` / `download_and_process_audio` for a given outcome: the
      records written, the download command, and the transcode command, which is run
      exactly when the download exited 0 and a file was found. */
  function Run(job: Job, outcome: Outcome): (w: Work)
    ensures w.writes == Writes(job, outcome)
    ensures w.downloadArgv == FetchArgv(job)
    ensures w.convertArgv.Some? <==> outcome.download == DownloadExited(0) && outcome.found.Some?
    ensures w.convertArgv.Some? ==> w.convertArgv.value == ConvertArgv(job, outcome.found.value)
    ensures Succeeded(outcome) ==>
              && Last(w.writes).downloadUrl == Some("/downloads/" + OutputName(job))
              && w.convertArgv.Some?
              && w.convertArgv.value[|w.convertArgv.value| - 1] == OutputPath(OutputName(job))
    ensures Succeeded(outcome) && Plain(OutputName(job)) ==>
              w.convertArgv.value[|w.convertArgv.value| - 1] == ProcessedDir + "/" + OutputName(job)
  {
    RunLast(job, outcome);
    Work(Writes(job, outcome), FetchArgv(job), if Proceeds(outcome) then Some(ConvertArgv(job, outcome.found.value)) else None)
  }

  /** The record a run leaves behind. */
  function Last(ws: seq<TaskRecord>): TaskRecord
    requires |ws| > 0
  {
    ws[|ws| - 1]
  }

  /** The whole pipeline worked: the downloader exited 0, the glob found a file, and the
      transcoder exited 0. */
  predicate Succeeded(outcome: Outcome) {
    && outcome.download == DownloadExited(0)
    && outcome.found.Some?
    && outcome.convert.ConvertExited? && outcome.convert.code == 0
  }

  /** The extension of the converted file. */
  function OutputExt(job: Job): string {
    match job.kind
    case Video => job.request.format
    case Audio => NormalizeAudioFormat(job.request.format)
  }

  /** The record a run leaves behind is its closing write. */
  lemma RunLast(job: Job, outcome: Outcome)
    ensures Last(Writes(job, outcome)) == Closing(job, outcome)
  {
  }

  /** A run ends `completed` exactly when download, file search and transcode all
      succeed; the record then shows 100% and links `/downloads/<id>.<ext>`, where an
      audio job's extension is always a supported container. */
  lemma RunCompletes(job: Job, outcome: Outcome)
    ensures Last(Writes(job, outcome)).status == Completed <==> Succeeded(outcome)
    ensures Succeeded(outcome) ==>
              Last(Writes(job, outcome))
              == TaskRecord(Completed, 100, ReadyMessage(job.kind), None, Some("/downloads/" + OutputName(job)))
    ensures OutputName(job) == job.taskId + "." + OutputExt(job)
    ensures job.kind == Audio ==> OutputExt(job) in AudioFormats
  {
    RunLast(job, outcome);
  }

  /** Every way a run can fail leaves a `failed` record at 0%; only the missing-file case
      comes without an `error` text. */
  lemma RunFailsAtZero(job: Job, outcome: Outcome)
    ensures !Succeeded(outcome) <==> Last(Writes(job, outcome)).status == Failed
    ensures !Succeeded(outcome) ==> Last(Writes(job, outcome)).progress == 0
    ensures !Succeeded(outcome) ==>
              (Last(Writes(job, outcome)).error.None? <==> outcome.download == DownloadExited(0) && outcome.found.None?)
  {
    RunLast(job, outcome);
  }

  /** What the failed record says, by cause. */
  lemma RunFailureDetail(job: Job, outcome: Outcome)
    ensures outcome.download.DownloadExited? && outcome.download.code != 0 ==>
              Last(Writes(job, outcome)) == TaskRecord(Failed, 0, DownloadFailedMessage(job.kind),
                                                    Some("Process exited with non-zero code"), None)
    ensures outcome.download == DownloadExited(0) && outcome.found.None? ==>
              Last(Writes(job, outcome)) == TaskRecord(Failed, 0, NoFileMessage(job.kind), None, None)
    ensures Proceeds(outcome) && outcome.convert.ConvertExited? && outcome.convert.code != 0 ==>
              Last(Writes(job, outcome)).error
              == Some(if outcome.convert.stderr == "" then "Unknown error" else outcome.convert.stderr)
  {
    RunLast(job, outcome);
  }

  /** The writes of a run, split into its phases. */
  lemma RunShape(job: Job, outcome: Outcome)
    ensures var ws := Writes(job, outcome);
            var fetched := FetchPhase(job.kind, outcome.lines);
            && ws[..|fetched|] == fetched
            && (Proceeds(outcome) ==> ws[|fetched|..|ws| - 1] == ConvertPhase(job.kind, outcome.ticks))
            && (!Proceeds(outcome) ==> |ws| == |fetched| + 1)
  {
    var fetched := FetchPhase(job.kind, outcome.lines);
    if Proceeds(outcome) {
      var converted := ConvertPhase(job.kind, outcome.ticks);
      var ws := fetched + converted + [Closing(job, outcome)];
      assert ws[..|fetched|] == fetched;
      assert ws[|fetched|..|ws| - 1] == converted;
    } else {
      var ws := fetched + [Closing(job, outcome)];
      assert ws[..|fetched|] == fetched;
    }
  }

  /** Where each write of a run falls: downloading first, then processing, then the end. */
  lemma RunPhaseAt(job: Job, outcome: Outcome, k: int)
    requires 0 <= k < |Writes(job, outcome)|
    ensures var ws := Writes(job, outcome);
            var f := |FetchPhase(job.kind, outcome.lines)|;
            && (k < f ==> ws[k].status == Downloading && ws[k].progress <= 45)
            && (f <= k < |ws| - 1 ==> ws[k].status == Processing && ws[k].progress <= 90)
            && (f <= k < |ws| - 1 && (forall t :: t in outcome.ticks ==> t >= 0.0) ==> 50 <= ws[k].progress)
  {
    var ws := Writes(job, outcome);
    var fetched := FetchPhase(job.kind, outcome.lines);
    var f := |fetched|;
    RunShape(job, outcome);
    if k < f {
      assert ws[k] == ws[..f][k];
      assert ws[k] in fetched;
    } else if k < |ws| - 1 {
      assert ws[k] == ws[f..|ws| - 1][k - f];
      assert ws[k] in ConvertPhase(job.kind, outcome.ticks);
    }
  }

  /** Records are written in phase order: downloading, then processing, then the end. */
  lemma RunPhasesOrdered(job: Job, outcome: Outcome)
    ensures var ws := Writes(job, outcome);
            forall i, j :: 0 <= i <= j < |ws| ==> Rank(ws[i].status) <= Rank(ws[j].status)
  {
    var interim := Interim(job.kind, outcome);
    var closing := [Closing(job, outcome)];
    SameRankOrdered(closing, 3);
    ConcatOrdered(interim, closing, 3);
    assert Writes(job, outcome) == interim + closing;
  }

  /** The records never go back a phase. */
  ghost predicate PhaseOrdered(ws: seq<TaskRecord>) {
    forall i, j :: 0 <= i <= j < |ws| ==> Rank(ws[i].status) <= Rank(ws[j].status)
  }

  lemma SameRankOrdered(ws: seq<TaskRecord>, m: nat)
    requires forall r :: r in ws ==> Rank(r.status) == m
    ensures PhaseOrdered(ws)
  {
    forall i, j | 0 <= i <= j < |ws| ensures Rank(ws[i].status) <= Rank(ws[j].status) {
      assert ws[i] in ws && ws[j] in ws;
    }
  }

  lemma ConcatOrdered(a: seq<TaskRecord>, b: seq<TaskRecord>, m: nat)
    requires PhaseOrdered(a) && PhaseOrdered(b)
    requires forall r :: r in a ==> Rank(r.status) <= m
    requires forall r :: r in b ==> Rank(r.status) >= m
    ensures PhaseOrdered(a + b)
  {
    var s := a + b;
    forall i, j | 0 <= i <= j < |s| ensures Rank(s[i].status) <= Rank(s[j].status) {
      if j < |a| {
        assert s[i] == a[i] && s[j] == a[j];
      } else if i >= |a| {
        assert s[i] == b[i - |a|] && s[j] == b[j - |a|];
      } else {
        assert s[i] == a[i] && a[i] in a;
        assert s[j] == b[j - |a|] && b[j - |a|] in b;
      }
    }
  }

  /** While downloading the record shows at most 45%; while transcoding at most 90%, and
      at least 50% when the clock does not run backwards. */
  lemma RunProgressBounds(job: Job, outcome: Outcome)
    ensures var ws := Writes(job, outcome);
            forall k :: 0 <= k < |ws| && ws[k].status == Downloading ==> ws[k].progress <= 45
    ensures var ws := Writes(job, outcome);
            forall k :: 0 <= k < |ws| && ws[k].status == Processing ==> ws[k].progress <= 90
    ensures (forall t :: t in outcome.ticks ==> t >= 0.0) ==>
              var ws := Writes(job, outcome);
              forall k :: 0 <= k < |ws| && ws[k].status == Processing ==> 50 <= ws[k].progress
  {
    var ws := Writes(job, outcome);
    forall k | 0 <= k < |ws|
      ensures ws[k].status == Downloading ==> ws[k].progress <= 45
      ensures ws[k].status == Processing ==> ws[k].progress <= 90
      ensures ws[k].status == Processing && (forall t :: t in outcome.ticks ==> t >= 0.0) ==> 50 <= ws[k].progress
    {
      RunPhaseAt(job, outcome, k);
    }
  }

  /** The first accepted line of the downloader's output sets the first write. */
  lemma FetchWritesFirst(kind: Kind, current: TaskRecord, lines: seq<string>, p: int)
    requires |lines| > 0 && ParseDownloadLine(lines[0]) == Some(p)
    ensures |FetchWrites(kind, current, lines)| > 0 && FetchWrites(kind, current, lines)[0].progress == p
  {
  }

  /** The download phase of a run whose first line reports 0 of `total` bytes. */
  lemma FetchPhaseFirstLine(kind: Kind, lines: seq<string>, total: int)
    requires total > 0 && |lines| > 0 && lines[0] == DownloadLine(0, total)
    ensures var fetched := FetchPhase(kind, lines);
            |fetched| > 2 && fetched[1].progress == 10 && fetched[2].progress == 5
  {
    DownloadLineRoundTrip(0, total);
    ZeroBytesIsFive(total);
    var fetching := TaskRecord(Downloading, 10, FetchMessage(kind), None, None);
    FetchWritesFirst(kind, fetching, lines, 5);
  }

  /** The first accepted progress line can lower the figure: a run whose downloader first
      reports 0 bytes goes from 10% back to 5%. */
  lemma RunProgressCanDrop(job: Job, outcome: Outcome, total: int)
    requires total > 0 && |outcome.lines| > 0 && outcome.lines[0] == DownloadLine(0, total)
    ensures var ws := Writes(job, outcome);
            |ws| > 3 && ws[1].progress == 10 && ws[2].progress == 5
  {
    var fetched := FetchPhase(job.kind, outcome.lines);
    FetchPhaseFirstLine(job.kind, outcome.lines, total);
    RunShape(job, outcome);
    var ws := Writes(job, outcome);
    assert ws[1] == ws[..|fetched|][1] && ws[2] == ws[..|fetched|][2];
  }

  /** A video job asking for the format `mp4/` completes with the link `/downloads/<id>.mp4/`
      while the transcoder wrote `processed/<id>.mp4`: the link carries a trailing slash
      that the file does not, which the static mount normalises away when serving it. */
  lemma TrailingSlashInLink(job: Job, outcome: Outcome)
    requires job.kind == Video && job.request.format == "mp4/" && '/' !in job.taskId
    requires Succeeded(outcome)
    ensures var w := Run(job, outcome);
            var argv := w.convertArgv.value;
            && Last(w.writes).downloadUrl == Some("/downloads/" + (job.taskId + ".mp4/"))
            && argv[|argv| - 1] == ProcessedDir + "/" + (job.taskId + ".mp4")
  {
    var name := job.taskId + ".mp4";
    VideoNamePlain(job.taskId, "mp4");
    assert OutputName(job) == name + "/" == job.taskId + ".mp4/";
    OutputPathDropsSlash(name);
    var w := Run(job, outcome);
    assert Last(w.writes).downloadUrl == Some("/downloads/" + OutputName(job));
  }

  // ---- the store ----

  /** The store once a run has finished writing the job's entry. */
  function Finish(store: Store, job: Job, outcome: Outcome): (s: Store)
    ensures GetStatus(s, job.taskId) == Found(Last(Writes(job, outcome)))
    ensures forall id :: id != job.taskId ==> GetStatus(s, id) == GetStatus(store, id)
  {
    store[job.taskId := Last(Writes(job, outcome))]
  }

  /** Submitting a job and running it to the end: the poller finds the terminal record
      under the new id and every other job untouched. */
  lemma SubmitThenFinish(store: Store, taskId: string, kind: Kind, request: Request, outcome: Outcome)
    ensures var sub := Submit(store, taskId, kind, request);
            var after := Finish(sub.store, sub.job, outcome);
            && GetStatus(after, taskId).Found?
            && IsTerminal(GetStatus(after, taskId).record.status)
            && (forall id :: id != taskId ==> GetStatus(after, id) == GetStatus(store, id))
  {
    var sub := Submit(store, taskId, kind, request);
    var after := Finish(sub.store, sub.job, outcome);
    assert sub.job.taskId == taskId;
    forall id | id != taskId ensures GetStatus(after, id) == GetStatus(store, id) {
      assert GetStatus(after, id) == GetStatus(sub.store, id);
    }
  }
}
