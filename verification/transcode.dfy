/** The `ffmpeg` side of a job: which output format an audio job uses, and the command
    line that converts the downloaded file into `processed/<id>.<ext>`. */
module Transcode {
  import opened Options
  import opened Strings
  import opened Paths

  /** The containers an audio job may produce. */
  const AudioFormats: seq<string> := ["mp3", "m4a", "ogg", "wav"]

  /** The audio route's defaulting: a supported container is kept, anything else is mp3. */
  function NormalizeAudioFormat(requested: string): (f: string)
    ensures f in AudioFormats
    ensures requested in AudioFormats ==> f == requested
    ensures requested !in AudioFormats ==> f == "mp3"
  {
    if requested in AudioFormats then requested else "mp3"
  }

  /** Defaulting twice is defaulting once. */
  lemma NormalizeIdempotent(requested: string)
    ensures NormalizeAudioFormat(NormalizeAudioFormat(requested)) == NormalizeAudioFormat(requested)
  {
  }

  /** `ffmpeg -y -hide_banner -loglevel error -i`, followed by the input path. */
  const Prefix: seq<string> := ["ffmpeg", "-y", "-hide_banner", "-loglevel", "error", "-i"]

  /** Where converted files are written: `str(Path("./processed"))`. */
  const ProcessedDir := "processed"

  /** `str(PROCESSED_DIR / name)`: the converted file's path as `pathlib` spells it. */
  function OutputPath(name: string): (path: string)
    ensures |path| > 0 && path[0] in {'/', 'p'}
    ensures Plain(name) ==> path == ProcessedDir + "/" + name
  {
    JoinPathStart(ProcessedDir, name);
    if Plain(name) then (PlainJoin(ProcessedDir, name); JoinPath(ProcessedDir, name))
    else JoinPath(ProcessedDir, name)
  }

  /** Stereo 44.1 kHz mp3 at 192 kbit/s, without video. */
  const Mp3Args: seq<string> := ["-vn", "-ar", "44100", "-ac", "2", "-b:a", "192k"]

  /** Trimming is applied only when both ends are non-empty strings; they are passed to
      `ffmpeg` unchecked. */
  predicate TrimRequested(trimStart: Option<string>, trimEnd: Option<string>) {
    Filled(trimStart) && Filled(trimEnd)
  }

  function TrimArgs(trimStart: Option<string>, trimEnd: Option<string>): seq<string> {
    if TrimRequested(trimStart, trimEnd) then ["-ss", trimStart.value, "-to", trimEnd.value] else []
  }

  /** Codec options of a video job: H.264/AAC with fast start for mp4, audio only for
      mp3, stream copy for mkv, none for any other extension. */
  function VideoCodecArgs(format: string): (args: seq<string>)
    ensures "-ss" !in args && "-to" !in args
    ensures format == "mp3" ==> args == Mp3Args
    ensures format !in ["mp4", "mp3", "mkv"] ==> args == []
  {
    if format == "mp4" then ["-c:v", "libx264", "-preset", "fast", "-c:a", "aac", "-movflags", "+faststart"]
    else if format == "mp3" then Mp3Args
    else if format == "mkv" then ["-c", "copy"]
    else []
  }

  /** Codec options of an audio job: every choice drops the video stream, and an
      unsupported format gets the mp3 options. */
  function AudioCodecArgs(format: string): (args: seq<string>)
    ensures "-ss" !in args && "-to" !in args
    ensures |args| > 0 && args[0] == "-vn"
  {
    if format == "mp3" then Mp3Args
    else if format == "m4a" then ["-vn", "-c:a", "aac", "-b:a", "192k"]
    else if format == "ogg" then ["-vn", "-c:a", "libvorbis", "-q:a", "4"]
    else if format == "wav" then ["-vn", "-ar", "44100", "-ac", "2"]
    else Mp3Args
  }

  /** The converted file's name: `<id>.<format>` for video. */
  function VideoOutputName(taskId: string, format: string): string {
    taskId + "." + format
  }

  /** The converted file's name for audio: the extension follows the codec options, so an
      unsupported format is written as `<id>.mp3`. */
  function AudioOutputName(taskId: string, format: string): (name: string)
    ensures name == taskId + "." + NormalizeAudioFormat(format)
  {
    if format in AudioFormats then taskId + "." + format else taskId + ".mp3"
  }

  /** The full command: prefix and input, optional trim pair, codec options, output path. */
  function Argv(input: string, trimStart: Option<string>, trimEnd: Option<string>,
                codecArgs: seq<string>, outputName: string): (argv: seq<string>)
    ensures |argv| == 8 + |TrimArgs(trimStart, trimEnd)| + |codecArgs| && argv[..7] == Prefix + [input]
    ensures argv[|argv| - 1] == OutputPath(outputName)
    ensures argv[7 + |TrimArgs(trimStart, trimEnd)|..|argv| - 1] == codecArgs
    ensures TrimRequested(trimStart, trimEnd) ==>
              |argv| >= 12 && argv[7..11] == ["-ss", trimStart.value, "-to", trimEnd.value]
    ensures input != "-ss" && "-ss" !in codecArgs ==> ("-ss" in argv <==> TrimRequested(trimStart, trimEnd))
    ensures input != "-to" && "-to" !in codecArgs ==> ("-to" in argv <==> TrimRequested(trimStart, trimEnd))
  {
    var out := OutputPath(outputName);
    assert out != "-ss" && out != "-to";
    Prefix + [input] + TrimArgs(trimStart, trimEnd) + codecArgs + [out]
  }

  /** The video job's command; the output name keeps the requested format as it is, so
      a format with `/` in it is re-spelled by the path join. */
  function VideoArgv(input: string, trimStart: Option<string>, trimEnd: Option<string>,
                     taskId: string, format: string): (argv: seq<string>)
    ensures |argv| >= 8 && argv[..7] == Prefix + [input]
    ensures argv[|argv| - 1] == OutputPath(VideoOutputName(taskId, format))
    ensures Plain(VideoOutputName(taskId, format)) ==>
              argv[|argv| - 1] == ProcessedDir + "/" + taskId + "." + format
    ensures input != "-ss" ==> ("-ss" in argv <==> TrimRequested(trimStart, trimEnd))
    ensures input != "-to" ==> ("-to" in argv <==> TrimRequested(trimStart, trimEnd))
  {
    Argv(input, trimStart, trimEnd, VideoCodecArgs(format), VideoOutputName(taskId, format))
  }

  /** The audio job's command. */
  function AudioArgv(input: string, trimStart: Option<string>, trimEnd: Option<string>,
                     taskId: string, format: string): (argv: seq<string>)
    ensures |argv| >= 8 && argv[..7] == Prefix + [input]
    ensures argv[|argv| - 1] == OutputPath(AudioOutputName(taskId, format))
    ensures '/' !in taskId ==>
              argv[|argv| - 1] == ProcessedDir + "/" + taskId + "." + NormalizeAudioFormat(format)
    ensures input != "-ss" ==> ("-ss" in argv <==> TrimRequested(trimStart, trimEnd))
    ensures input != "-to" ==> ("-to" in argv <==> TrimRequested(trimStart, trimEnd))
    ensures |argv| > 8 + |TrimArgs(trimStart, trimEnd)| && argv[7 + |TrimArgs(trimStart, trimEnd)|] == "-vn"
  {
    AudioNamePlain(taskId, format);
    Argv(input, trimStart, trimEnd, AudioCodecArgs(format), AudioOutputName(taskId, format))
  }

  /** An audio output name is a single path component whenever the task id has no `/`. */
  lemma AudioNamePlain(taskId: string, format: string)
    ensures '/' !in taskId ==> Plain(AudioOutputName(taskId, format))
  {
    var f := NormalizeAudioFormat(format);
    var name := taskId + "." + f;
    assert f in AudioFormats;
    assert '/' !in f;
    assert |name| >= 2;
  }

  /** An unsupported audio format builds the same command as asking for mp3. */
  lemma UnsupportedAudioIsMp3(input: string, trimStart: Option<string>, trimEnd: Option<string>,
                              taskId: string, format: string)
    requires format !in AudioFormats
    ensures AudioArgv(input, trimStart, trimEnd, taskId, format)
            == AudioArgv(input, trimStart, trimEnd, taskId, "mp3")
  {
    assert format != "mp3" && format != "m4a" && format != "ogg" && format != "wav";
    assert AudioCodecArgs(format) == AudioCodecArgs("mp3");
    assert AudioOutputName(taskId, format) == AudioOutputName(taskId, "mp3");
  }

  /** Normalising before building the command (as the audio route does) changes nothing. */
  lemma AudioArgvNormalized(input: string, trimStart: Option<string>, trimEnd: Option<string>,
                            taskId: string, format: string)
    ensures AudioArgv(input, trimStart, trimEnd, taskId, NormalizeAudioFormat(format))
            == AudioArgv(input, trimStart, trimEnd, taskId, format)
  {
    if format !in AudioFormats {
      UnsupportedAudioIsMp3(input, trimStart, trimEnd, taskId, format);
    }
  }

  /** A video output name is a single path component when neither the task id nor the
      format has a `/` in it and the format is not empty. */
  lemma VideoNamePlain(taskId: string, format: string)
    requires '/' !in taskId && '/' !in format && format != ""
    ensures Plain(VideoOutputName(taskId, format))
  {
    var name := VideoOutputName(taskId, format);
    assert |name| >= 2;
    assert '/' !in name;
  }

  /** A trailing `/` on the output name does not reach the written path. */
  lemma OutputPathDropsSlash(name: string)
    requires Plain(name)
    ensures OutputPath(name + "/") == ProcessedDir + "/" + name
  {
    TrailingSlashDropped(ProcessedDir, name);
  }

  /** A video format ending in `/` (the video route does not validate the format) names
      the output `<id>.mp4/`, but the path join drops the slash: the file is written as
      `processed/<id>.mp4`. */
  lemma TrailingSlashVideoFormat(input: string, trimStart: Option<string>, trimEnd: Option<string>,
                                 taskId: string)
    requires '/' !in taskId
    ensures VideoOutputName(taskId, "mp4/") == taskId + ".mp4/"
    ensures var argv := VideoArgv(input, trimStart, trimEnd, taskId, "mp4/");
            argv[|argv| - 1] == ProcessedDir + "/" + taskId + ".mp4"
  {
    var name := taskId + ".mp4";
    VideoNamePlain(taskId, "mp4");
    assert VideoOutputName(taskId, "mp4/") == name + "/";
    OutputPathDropsSlash(name);
  }
}
