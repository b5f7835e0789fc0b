/** How the converter invokes its two external tools: the settings it reads,
    the checks it makes before spawning, the argument lists, how an exit
    status and the standard error text become success or a message, the
    classifier for exhale's standard error, and the simulated progress ticker.

    Processes are not run: each run is given as a `ProcessRun` outcome, and
    the file system as the set of paths that exist when they are checked. */
module Invocation {
  import opened Base
  import opened Urls
  import opened Models

  /** The stored settings, as `UserDefaults` returns them: a missing string
      is `None`, a missing integer is 0 and a missing flag is false. */
  datatype Config = Config(
    exhaleExecutablePath: Option<string>,
    outputQuality: Option<string>,
    parallelConversions: int,
    preserveMetadata: bool,
    deleteSourceFiles: bool)

  /** The tokens the quality picker offers. */
  const QualityTokens: seq<string> :=
    ["0", "1", "2", "3", "4", "5", "6", "7", "8", "9", "a", "b", "c", "d", "e", "f", "g"]

  /** The quality token passed to exhale: the stored one, else "5". */
  function Quality(cfg: Config): (q: string)
    ensures cfg.outputQuality.None? ==> q == "5"
    ensures cfg.outputQuality.Some? ==> q == cfg.outputQuality.value
  {
    cfg.outputQuality.GetOr("5")
  }

  /** A quality chosen in the picker, or none at all, gives exhale a preset
      from the picker's list. */
  lemma QualityIsPickerToken(cfg: Config)
    requires cfg.outputQuality.None? || cfg.outputQuality.value in QualityTokens
    ensures Quality(cfg) in QualityTokens
  {
    assert QualityTokens[5] == "5";
  }

  /** The exhale path: the stored one, else the empty string. */
  function ExhalePath(cfg: Config): (p: string)
    ensures cfg.exhaleExecutablePath.None? ==> p == ""
    ensures cfg.exhaleExecutablePath.Some? ==> p == cfg.exhaleExecutablePath.value
  {
    cfg.exhaleExecutablePath.GetOr("")
  }

  /** The concurrency limit of a batch: the setting if positive, else 2. */
  function ConcurrencyLimit(cfg: Config): (n: nat)
    ensures n >= 1
    ensures cfg.parallelConversions > 0 ==> n == cfg.parallelConversions
    ensures cfg.parallelConversions <= 0 ==> n == 2
  {
    if cfg.parallelConversions > 0 then cfg.parallelConversions else 2
  }

  /** How a spawned process ended. `LaunchError` is `process.run()` throwing,
      with the error's description. `Exited` gives the termination status,
      the standard error text ("" when empty or not UTF-8) and how many times
      in a row `isRunning` answered true before the process was seen to have
      ended (a process that has ended stays ended). */
  datatype ProcessRun =
    | LaunchError(description: string)
    | Exited(status: int, stderr: string, pollsWhileRunning: nat)

  /** What the outside world does for one item. */
  datatype Env = Env(
    existing: set<string>,          // paths `fileExists(atPath:)` reports
    executables: set<string>,       // paths `isExecutableFile(atPath:)` reports
    bundledFFmpeg: Option<string>,  // `Bundle.main.path(forResource: "ffmpeg", ofType: nil)`
    safeOutput: FileURL,            // what `inputURL.safeOutputM4AURL` returns
    ffmpegRun: ProcessRun,
    exhaleRun: ProcessRun)

  /** One process spawn: executable path and argument list. */
  datatype Spawn = Spawn(executable: string, arguments: seq<string>)

  /** An error thrown out of a stage: one of the converter's own, or the one
      `process.run()` threw. */
  datatype Thrown = Converter(error: ConversionError) | Launch(description: string)

  /** `error.localizedDescription`; a `LocalizedError` gives its
      `errorDescription`. */
  function Describe(t: Thrown): (r: string)
    ensures t.Converter? ==> r == t.error.message
    ensures t.Launch? ==> r == t.description
  {
    match t
    case Converter(e) => ErrorDescription(e).value
    case Launch(d) => d
  }

  /** What one stage did: the spawn it made (if it got that far), the
      progress values its ticker reported in tenths, and the error it threw. */
  datatype StageResult = StageResult(spawned: Option<Spawn>, reports: seq<nat>, error: Option<Thrown>)

  // ---------------------------------------------------------------- ffmpeg

  /** `getBundledFFmpegPath`: the bundle's path, provided the file exists and
      is executable. */
  function BundledFFmpegPath(env: Env): (r: Option<string>)
    ensures r.Some? <==>
      env.bundledFFmpeg.Some? && env.bundledFFmpeg.value in env.existing
      && env.bundledFFmpeg.value in env.executables
    ensures r.Some? ==> r == env.bundledFFmpeg
  {
    match env.bundledFFmpeg
    case None => None
    case Some(p) => if p in env.existing && p in env.executables then Some(p) else None
  }

  /** ffmpeg's command line: read `input`, resample to 44100 Hz stereo, write
      WAV to `output`, overwriting it. */
  function FFmpegArguments(input: string, output: string): (args: seq<string>)
    ensures |args| == 10 && args[1] == input && args[9] == output
    ensures args[..1] == ["-i"] && args[2..9] == ["-ar", "44100", "-ac", "2", "-f", "wav", "-y"]
  {
    ["-i", input, "-ar", "44100", "-ac", "2", "-f", "wav", "-y", output]
  }

  /** ffmpeg's exit handling: status 0 is success; any other status fails
      with its number; standard error is never looked at. */
  function FFmpegExit(status: int): (r: Option<Thrown>)
    ensures r.None? <==> status == 0
    ensures r.Some? ==> r == Some(Converter(ConversionFailed("FFmpeg failed with exit code " + IntToString(status))))
  {
    if status == 0 then None
    else Some(Converter(ConversionFailed("FFmpeg failed with exit code " + IntToString(status))))
  }

  /** `convertToWAV(inputURL:outputURL:)` */
  function WAVStage(input: FileURL, output: FileURL, env: Env): (r: StageResult)
    ensures r.reports == []
    ensures r.spawned.Some? <==> BundledFFmpegPath(env).Some?
    ensures r.spawned.None? ==> r.error == Some(Converter(FFmpegNotFound("FFmpeg not found in app bundle")))
    ensures r.spawned.Some? ==>
      r.spawned.value == Spawn(BundledFFmpegPath(env).value, FFmpegArguments(Path(input), Path(output)))
  {
    match BundledFFmpegPath(env)
    case None =>
      StageResult(None, [], Some(Converter(FFmpegNotFound("FFmpeg not found in app bundle"))))
    case Some(ffmpeg) =>
      var spawn := Spawn(ffmpeg, FFmpegArguments(Path(input), Path(output)));
      match env.ffmpegRun
      case LaunchError(d) => StageResult(Some(spawn), [], Some(Launch(d)))
      case Exited(status, _, _) => StageResult(Some(spawn), [], FFmpegExit(status))
  }

  /** Once ffmpeg is spawned, a launch failure is thrown as it is and an exit
      is judged by its status alone; so the stage succeeds exactly when ffmpeg
      is bundled, launches and exits 0. */
  lemma WAVStageSucceedsIff(input: FileURL, output: FileURL, env: Env)
    ensures WAVStage(input, output, env).error.None? <==>
      BundledFFmpegPath(env).Some? && env.ffmpegRun.Exited? && env.ffmpegRun.status == 0
    ensures BundledFFmpegPath(env).Some? && env.ffmpegRun.Exited? ==>
      WAVStage(input, output, env).error == FFmpegExit(env.ffmpegRun.status)
    ensures BundledFFmpegPath(env).Some? && env.ffmpegRun.LaunchError? ==>
      WAVStage(input, output, env).error == Some(Launch(env.ffmpegRun.description))
  {
  }

  // ---------------------------------------------------------------- exhale

  /** exhale's command line: the preset first, then input, then output. */
  function ExhaleArguments(quality: string, input: string, output: string): (args: seq<string>)
    ensures |args| == 3 && args[0] == quality && args[1] == input && args[2] == output
  {
    [quality, input, output]
  }

  /** The checks made before exhale is spawned, in order: a path is set, the
      file at that path exists, the input exists. Whether the file is
      executable is looked up but never rejects it. */
  function ExhaleChecks(exhalePath: string, inputPath: string, existing: set<string>): (r: Option<ConversionError>)
    ensures r.None? <==> exhalePath != "" && exhalePath in existing && inputPath in existing
    ensures exhalePath == "" ==>
      r == Some(ExhaleNotFound("Exhale executable path not set. Please set it in Settings."))
    ensures exhalePath != "" && exhalePath !in existing ==>
      r == Some(ExhaleNotFound("Exhale executable not found at: " + exhalePath))
    ensures exhalePath != "" && exhalePath in existing && inputPath !in existing ==>
      r == Some(InputFileNotFound("Input file not found: " + inputPath))
  {
    if exhalePath == "" then Some(ExhaleNotFound("Exhale executable path not set. Please set it in Settings."))
    else if exhalePath !in existing then Some(ExhaleNotFound("Exhale executable not found at: " + exhalePath))
    else if inputPath !in existing then Some(InputFileNotFound("Input file not found: " + inputPath))
    else None
  }

  /** exhale's exit handling in the termination handler. */
  function ExhaleExit(status: int, stderr: string, quality: string): (r: Option<Thrown>)
    ensures r.None? <==> status == 0
    ensures status != 0 && stderr != "" ==>
      r == Some(Converter(ConversionFailed(ParseExhaleError(stderr, quality))))
    ensures status != 0 && stderr == "" ==>
      r == Some(Converter(ConversionFailed("Exhale failed with exit code " + IntToString(status))))
  {
    if stderr != "" && status != 0 then
      Some(Converter(ConversionFailed(ParseExhaleError(stderr, quality))))
    else if status == 0 then None
    else Some(Converter(ConversionFailed("Exhale failed with exit code " + IntToString(status))))
  }

  /** `runExhaleConversion`, as a value: checks, then the spawn, then the
      ticker's reports and the exit handling. */
  function ExhaleStage(cfg: Config, input: FileURL, output: FileURL, env: Env): StageResult
  {
    var exhalePath := ExhalePath(cfg);
    var quality := Quality(cfg);
    match ExhaleChecks(exhalePath, Path(input), env.existing)
    case Some(e) => StageResult(None, [], Some(Converter(e)))
    case None =>
      var spawn := Spawn(exhalePath, ExhaleArguments(quality, Path(input), Path(output)));
      match env.exhaleRun
      case LaunchError(d) => StageResult(Some(spawn), [], Some(Launch(d)))
      case Exited(status, stderr, polls) =>
        StageResult(Some(spawn), TickerReports(polls), ExhaleExit(status, stderr, quality))
  }

  /** exhale is spawned exactly when the checks pass, as
      `<path> <quality> <input> <output>`; a failed check spawns nothing and
      reports no progress. */
  lemma ExhaleStageSpawnsAfterChecks(cfg: Config, input: FileURL, output: FileURL, env: Env)
    ensures var r := ExhaleStage(cfg, input, output, env);
      var check := ExhaleChecks(ExhalePath(cfg), Path(input), env.existing);
      (r.spawned.Some? <==> check.None?) &&
      (check.Some? ==> r == StageResult(None, [], Some(Converter(check.value)))) &&
      (r.spawned.Some? ==>
        r.spawned.value.executable == ExhalePath(cfg)
        && r.spawned.value.arguments == [Quality(cfg), Path(input), Path(output)])
  {
  }

  /** exhale's progress reports are the ticker's, or none when exhale was
      never started. */
  lemma ExhaleStageReports(cfg: Config, input: FileURL, output: FileURL, env: Env)
    ensures var r := ExhaleStage(cfg, input, output, env);
      r.reports == [] || (env.exhaleRun.Exited? && r.reports == TickerReports(env.exhaleRun.pollsWhileRunning))
  {
  }

  /** The stage succeeds exactly when the checks pass, the launch works and
      the status is 0, whatever exhale wrote to standard error. */
  lemma ExhaleStageSucceedsIff(cfg: Config, input: FileURL, output: FileURL, env: Env)
    ensures ExhaleStage(cfg, input, output, env).error.None? <==>
      ExhaleChecks(ExhalePath(cfg), Path(input), env.existing).None?
      && env.exhaleRun.Exited? && env.exhaleRun.status == 0
  {
  }

  // ------------------------------------------------------------ classifier

  const SampleRatePattern := "input sample rate must be <=32 khz"
  const OpenInputPattern := "could not open input file"
  const WavePattern := "invalid wave file"
  const CreateOutputPattern := "could not create output file"
  const PermissionPattern := "permission denied"
  const ChannelPattern := "unsupported channel configuration"

  function SampleRateMessage(quality: string): string
  {
    Lines([
      "\U{1F6A8} Sample Rate Too High for Preset " + quality,
      "",
      "Your audio file has a sample rate higher than 32 kHz (probably 44.1 kHz).",
      "",
      "Solutions:",
      "\U{2022} Use preset 1-9 or a-g (they support higher sample rates)",
      "\U{2022} Preset 0 only works with \U{2264}32 kHz audio files",
      "",
      "Recommended: Try preset '5' for good quality at normal bitrates."])
  }

  const InvalidInputMessage: string := Lines([
    "\U{1F6A8} Invalid Input File",
    "",
    "The WAV file appears to be corrupted or in an unsupported format.",
    "",
    "Make sure:",
    "\U{2022} File is a valid WAV/WAVE file",
    "\U{2022} File is not corrupted or empty",
    "\U{2022} File has standard PCM encoding"])

  const OutputFileMessage: string := Lines([
    "\U{1F6A8} Cannot Create Output File",
    "",
    "Check:",
    "\U{2022} You have write permission to the output folder",
    "\U{2022} Output file isn't already open in another app",
    "\U{2022} There's enough disk space",
    "\U{2022} Try saving to Downloads folder"])

  const ChannelMessage: string := Lines([
    "\U{1F6A8} Unsupported Audio Channels",
    "",
    "Exhale may not support this channel configuration.",
    "",
    "Supported:",
    "\U{2022} Mono (1 channel)",
    "\U{2022} Stereo (2 channels)",
    "\U{2022} Some multichannel formats"])

  const DefaultMessageHead: string := "\U{1F6A8} Conversion Failed\n\nRaw error: "

  const DefaultMessageTail: string := Lines([
    "",
    "",
    "Common solutions:",
    "\U{2022} Try a different quality preset (1-9 or a-g)",
    "\U{2022} Make sure input is a valid WAV file",
    "\U{2022} Check file permissions",
    "\U{2022} Try moving files to Downloads folder"])

  function DefaultMessage(errorString: string): string
  {
    DefaultMessageHead + errorString + DefaultMessageTail
  }

  /** The four recognised kinds of failure, tried in this order. */
  predicate SampleRateError(lowered: string) { Contains(lowered, SampleRatePattern) }
  predicate InputError(lowered: string) { Contains(lowered, OpenInputPattern) || Contains(lowered, WavePattern) }
  predicate OutputError(lowered: string) { Contains(lowered, CreateOutputPattern) || Contains(lowered, PermissionPattern) }
  predicate ChannelError(lowered: string) { Contains(lowered, ChannelPattern) }

  predicate Recognised(lowered: string)
  {
    SampleRateError(lowered) || InputError(lowered) || OutputError(lowered) || ChannelError(lowered)
  }

  /** `parseExhaleError`: the first pattern found in the lowercased text
      chooses the message; with none found, the raw text is quoted. */
  function ParseExhaleError(errorString: string, quality: string): string
  {
    var error := Lower(errorString);
    if SampleRateError(error) then SampleRateMessage(quality)
    else if InputError(error) then InvalidInputMessage
    else if OutputError(error) then OutputFileMessage
    else if ChannelError(error) then ChannelMessage
    else DefaultMessage(errorString)
  }

  /** First match wins: a later pattern matters only when every earlier one
      is absent. */
  lemma ParseExhaleErrorFirstMatch(errorString: string, quality: string)
    ensures var e := Lower(errorString); var r := ParseExhaleError(errorString, quality);
      (SampleRateError(e) ==> r == SampleRateMessage(quality)) &&
      (!SampleRateError(e) && InputError(e) ==> r == InvalidInputMessage) &&
      (!SampleRateError(e) && !InputError(e) && OutputError(e) ==> r == OutputFileMessage) &&
      (!SampleRateError(e) && !InputError(e) && !OutputError(e) && ChannelError(e) ==> r == ChannelMessage) &&
      (!Recognised(e) ==> r == DefaultMessage(errorString))
  {
  }

  /** Classification ignores case: texts that agree once lowercased get the
      same message, unless neither is recognised, in which case each gets
      the default message quoting its own text. */
  lemma ParseExhaleErrorCaseInsensitive(s: string, t: string, quality: string)
    requires Lower(s) == Lower(t)
    ensures Recognised(Lower(s)) ==> ParseExhaleError(s, quality) == ParseExhaleError(t, quality)
    ensures !Recognised(Lower(s)) ==>
      ParseExhaleError(s, quality) == DefaultMessage(s) && ParseExhaleError(t, quality) == DefaultMessage(t)
  {
  }

  /** In particular, lowercasing the text first changes nothing. */
  lemma ParseExhaleErrorOfLowered(s: string, quality: string)
    ensures Recognised(Lower(s)) ==> ParseExhaleError(Lower(s), quality) == ParseExhaleError(s, quality)
  {
    LowerIdempotent(s);
  }

  /** The sample-rate message names the preset in use. */
  lemma SampleRateMessageNamesPreset(errorString: string, quality: string)
    requires SampleRateError(Lower(errorString))
    ensures Contains(ParseExhaleError(errorString, quality), quality)
  {
    var head := "\U{1F6A8} Sample Rate Too High for Preset ";
    var m := SampleRateMessage(quality);
    var rest := m[|head| + |quality|..];
    assert m == head + quality + rest;
    ContainsInfix(head, quality, rest);
  }

  /** The default message quotes the original text, in its original case. */
  lemma DefaultMessageQuotesRaw(errorString: string, quality: string)
    requires !Recognised(Lower(errorString))
    ensures Contains(ParseExhaleError(errorString, quality), errorString)
  {
    ContainsInfix(DefaultMessageHead, errorString, DefaultMessageTail);
  }

  // ----------------------------------------------------------------- ticker

  /** The ticker's reports, in tenths: one report per tick while the process
      is running, at most ten ticks, each capped at 9; then 10 if the process
      is seen to have ended. The loop polls `isRunning` once per test of its
      condition and once more after it. */
  function TickerReports(pollsWhileRunning: nat): (r: seq<nat>)
    ensures 1 <= |r| <= 11
  {
    seq(Min(pollsWhileRunning, 10), k => Min(k + 1, 9)) + (if pollsWhileRunning <= 11 then [10] else [])
  }

  /** The simulated progress loop, with `isRunning` answering true on its
      first `pollsWhileRunning` polls. */
  method SimulateProgress(pollsWhileRunning: nat) returns (reports: seq<nat>)
    ensures reports == TickerReports(pollsWhileRunning)
  {
    var polls := 0;        // answers `isRunning` has given so far
    var progress := 0;     // tenths
    reports := [];
    while polls < pollsWhileRunning && progress < 10
      invariant progress == polls == |reports| <= 10
      invariant polls <= pollsWhileRunning
      invariant forall k :: 0 <= k < |reports| ==> reports[k] == Min(k + 1, 9)
    {
      polls := polls + 1;
      progress := progress + 1;
      reports := reports + [Min(progress, 9)];
    }
    // The guard made one more poll when it failed; the check after the loop
    // is the next one.
    if !(polls + 1 < pollsWhileRunning) {
      reports := reports + [10];
    }
  }

  /** What the ticker promises: reports never go down, every report but the
      last is at most 0.9, and 1.0 is reported, last, exactly when a poll saw
      the process ended. */
  lemma {:induction false} TickerReportsShape(polls: nat)
    ensures var r := TickerReports(polls);
      NonDecreasing(r) && (forall i :: 0 <= i < |r| ==> 1 <= r[i] <= 10)
      && (forall i :: 0 <= i < |r| - 1 ==> r[i] <= 9)
      && (10 in r <==> polls <= 11)
      && (10 in r ==> r[|r| - 1] == 10)
      && (polls > 11 ==> |r| == 10 && r[9] == 9)
  {
    var ticks := seq(Min(polls, 10), k => Min(k + 1, 9));
    var r := TickerReports(polls);
    assert r[..|ticks|] == ticks;
    assert forall i :: 0 <= i < |ticks| ==> ticks[i] <= 9;
    assert forall i :: 0 <= i < |r| ==> 1 <= r[i] <= 10 by {
      forall i | 0 <= i < |r| ensures 1 <= r[i] <= 10 {
        if i < |ticks| { assert r[i] == ticks[i]; }
      }
    }
    assert 10 in r <==> polls <= 11 by {
      if 10 in r {
        var i :| 0 <= i < |r| && r[i] == 10;
        if i < |ticks| { assert r[i] == ticks[i]; }
      }
      if polls <= 11 { assert r[|r| - 1] == 10; }
    }
  }

  /** `runExhaleConversion`: checks, spawn, ticker, exit handling. */
  method RunExhaleConversion(cfg: Config, input: FileURL, output: FileURL, env: Env) returns (r: StageResult)
    ensures r == ExhaleStage(cfg, input, output, env)
  {
    var exhalePath := ExhalePath(cfg);
    var quality := Quality(cfg);
    var check := ExhaleChecks(exhalePath, Path(input), env.existing);
    if check.Some? {
      return StageResult(None, [], Some(Converter(check.value)));
    }
    var spawn := Spawn(exhalePath, ExhaleArguments(quality, Path(input), Path(output)));
    match env.exhaleRun
    case LaunchError(d) =>
      r := StageResult(Some(spawn), [], Some(Launch(d)));
    case Exited(status, stderr, polls) =>
      var reports := SimulateProgress(polls);
      r := StageResult(Some(spawn), reports, ExhaleExit(status, stderr, quality));
  }
}
