/** The per-item pipeline (`convertItem`): the lowercased extension chooses
    one stage (exhale on the input) or two (ffmpeg to `<input>.temp.wav`, then
    exhale on that file); progress is set at fixed checkpoints and exhale's
    reports are rescaled into it; the item ends completed or failed.

    `Conversion` is the reference definition of what happens to one item;
    `BeginConversion` and `FinishConversion` are the imperative steps, split
    at the first suspension point of `convertItem`. */
module Pipeline {
  import opened Base
  import opened Urls
  import opened Models
  import opened Invocation

  /** Extensions converted to WAV by ffmpeg before encoding. */
  const TwoStageExtensions: seq<string> := ["mp3", "flac", "m4a", "aac", "mp4"]

  datatype Route = Direct | ViaWAV

  function RouteFor(input: FileURL): Route
  {
    if Lower(PathExtension(input)) in TwoStageExtensions then ViaWAV else Direct
  }

  /** Every URL the drop filter lets through is either a WAV file, encoded
      directly, or one converted to WAV first. */
  lemma DroppedFilesRoute(u: FileURL)
    requires DropAccepts(u)
    ensures IsWAVFile(u) <==> RouteFor(u) == Direct
  {
  }

  /** Every WAV file is accepted at the drop and encoded directly. */
  lemma WAVFilesAcceptedAndDirect(u: FileURL)
    ensures IsWAVFile(u) ==> DropAccepts(u) && RouteFor(u) == Direct
  {
  }

  /** "mp4" is routed through ffmpeg, yet the drop filter rejects it. */
  lemma Mp4RoutedButNotDroppable(stem: string)
    ensures RouteFor(FileURL(stem, Some("mp4"))) == ViaWAV
    ensures !DropAccepts(FileURL(stem, Some("mp4")))
  {
    assert Lower("mp4") == "mp4";
  }

  /** An effect on the outside world, in the order the item performs them. */
  datatype Effect =
    | Run(spawn: Spawn)
    | RemoveFile(path: string)
    | CopyMetadata(source: FileURL, destination: FileURL)

  datatype Terminal = Succeeded(output: FileURL) | FailedWith(message: string)

  /** What happens to one item after it has been started: its effects, the
      progress values written to it (hundredths) and how it ends. */
  datatype ItemOutcome = ItemOutcome(effects: seq<Effect>, progress: seq<nat>, terminal: Terminal)

  function Runs(s: StageResult): seq<Effect>
  {
    if s.spawned.Some? then [Run(s.spawned.value)] else []
  }

  /** The progress callback: exhale's report `t` (tenths) as item progress. */
  function Weighted(route: Route, t: nat): nat
  {
    match route
    case Direct => 10 * t
    case ViaWAV => 50 + 5 * t
  }

  function WeightedReports(route: Route, reports: seq<nat>): (r: seq<nat>)
    ensures |r| == |reports|
    ensures forall i :: 0 <= i < |r| ==> r[i] == Weighted(route, reports[i])
  {
    seq(|reports|, i requires 0 <= i < |reports| => Weighted(route, reports[i]))
  }

  /** After a successful encode: the optional metadata copy, then the
      optional deletion of the source. */
  function AfterSuccess(input: FileURL, output: FileURL, cfg: Config): seq<Effect>
  {
    (if cfg.preserveMetadata then [CopyMetadata(input, output)] else [])
    + (if cfg.deleteSourceFiles then [RemoveFile(Path(input))] else [])
  }

  /** What the one or two stages did: the processes spawned, the progress
      written to the item and the first error thrown. */
  datatype StagesOutcome = StagesOutcome(runs: seq<Effect>, progress: seq<nat>, error: Option<Thrown>)

  function Stages(input: FileURL, cfg: Config, env: Env): StagesOutcome
  {
    match RouteFor(input)
    case ViaWAV =>
      var temp := TempWAVURL(input);
      var wav := WAVStage(input, temp, env);
      if wav.error.Some? then StagesOutcome(Runs(wav), [10], wav.error)
      else
        var exhale := ExhaleStage(cfg, temp, env.safeOutput, env);
        StagesOutcome(Runs(wav) + Runs(exhale), [10, 50] + WeightedReports(ViaWAV, exhale.reports), exhale.error)
    case Direct =>
      var exhale := ExhaleStage(cfg, input, env.safeOutput, env);
      StagesOutcome(Runs(exhale), WeightedReports(Direct, exhale.reports), exhale.error)
  }

  /** A two-stage item first writes 0.1; stages that all succeeded ran at
      least one process. */
  lemma StagesShape(input: FileURL, cfg: Config, env: Env)
    ensures var st := Stages(input, cfg, env);
      (RouteFor(input) == ViaWAV ==> st.progress != [] && st.progress[0] == 10)
      && (st.error.None? ==> st.runs != [])
  {
    ExhaleStageSucceedsIff(cfg, TempWAVURL(input), env.safeOutput, env);
    ExhaleStageSucceedsIff(cfg, input, env.safeOutput, env);
  }

  /** The removal of the temporary WAV file after a two-stage encode. */
  function TempCleanup(input: FileURL): seq<Effect>
  {
    if RouteFor(input) == ViaWAV then [RemoveFile(Path(TempWAVURL(input)))] else []
  }

  /** The reference definition of `convertItem` after its first two writes. */
  function Conversion(input: FileURL, cfg: Config, env: Env): ItemOutcome
  {
    var st := Stages(input, cfg, env);
    match st.error
    case Some(e) => ItemOutcome(st.runs, st.progress, FailedWith(Describe(e)))
    case None =>
      ItemOutcome(st.runs + TempCleanup(input) + AfterSuccess(input, env.safeOutput, cfg),
                  st.progress, Succeeded(env.safeOutput))
  }

  /** The first two writes of `convertItem`. */
  function Begun(s: ItemState): (r: ItemState)
    ensures r.status == Converting && r.progress == 0
    ensures r.input == s.input && r.outputURL == s.outputURL && r.errorMessage == s.errorMessage
  {
    s.(status := Converting, progress := 0)
  }

  /** The item's fields once the outcome has been written to them. */
  function Finished(s: ItemState, o: ItemOutcome): (r: ItemState)
    ensures r.input == s.input
    ensures o.terminal.Succeeded? ==>
      r.status == Completed && r.outputURL == Some(o.terminal.output) && r.errorMessage == s.errorMessage
    ensures o.terminal.FailedWith? ==>
      r.status == Failed && r.errorMessage == Some(o.terminal.message) && r.outputURL == s.outputURL
    ensures r.progress == LastWritten(s.progress, o.progress)
  {
    var s' := s.(progress := LastWritten(s.progress, o.progress));
    match o.terminal
    case Succeeded(out) => s'.(status := Completed, outputURL := Some(out))
    case FailedWith(m) => s'.(status := Failed, errorMessage := Some(m))
  }

  // ----------------------------------------------------------- the methods

  method BeginConversion(item: ConversionItem)
    modifies item
    ensures item.State() == Begun(old(item.State()))
  {
    item.status := Converting;
    item.progress := 0;
  }

  /** The value of a field after the writes `writes` were made to it, in
      order, starting from `p`. */
  function LastWritten(p: nat, writes: seq<nat>): (r: nat)
    ensures writes == [] ==> r == p
    ensures writes != [] ==> r == writes[|writes| - 1]
  {
    if writes == [] then p else writes[|writes| - 1]
  }

  /** The stages of `convertItem`: the progress checkpoints and the one or
      two processes, up to the first error thrown. */
  method RunStages(item: ConversionItem, cfg: Config, env: Env) returns (runs: seq<Effect>, failure: Option<Thrown>)
    modifies item
    ensures runs == Stages(item.inputURL, cfg, env).runs
    ensures failure == Stages(item.inputURL, cfg, env).error
    ensures item.State() ==
      old(item.State()).(progress := LastWritten(old(item.progress), Stages(item.inputURL, cfg, env).progress))
  {
    var input := item.inputURL;
    var output := env.safeOutput;
    if RouteFor(input) == ViaWAV {
      var temp := TempWAVURL(input);
      item.progress := 10;
      var wav := WAVStage(input, temp, env);
      runs := Runs(wav);
      if wav.error.Some? {
        failure := wav.error;
      } else {
        item.progress := 50;
        var exhale := RunExhaleConversion(cfg, temp, output, env);
        runs := runs + Runs(exhale);
        if exhale.reports != [] {
          item.progress := Weighted(ViaWAV, exhale.reports[|exhale.reports| - 1]);
        }
        failure := exhale.error;
      }
    } else {
      var exhale := RunExhaleConversion(cfg, input, output, env);
      runs := Runs(exhale);
      if exhale.reports != [] {
        item.progress := Weighted(Direct, exhale.reports[|exhale.reports| - 1]);
      }
      failure := exhale.error;
    }
  }

  /** The rest of `convertItem`: the stages, the terminal status and the
      clean-up and post-processing, returning the effects made. */
  method FinishConversion(item: ConversionItem, cfg: Config, env: Env) returns (effects: seq<Effect>)
    modifies item
    ensures item.State() == Finished(old(item.State()), Conversion(item.inputURL, cfg, env))
    ensures effects == Conversion(item.inputURL, cfg, env).effects
  {
    var input := item.inputURL;
    var output := env.safeOutput;
    var failure;
    effects, failure := RunStages(item, cfg, env);
    match failure
    case None =>
      if RouteFor(input) == ViaWAV {
        effects := effects + [RemoveFile(Path(TempWAVURL(input)))];
      }
      item.status := Completed;
      item.outputURL := Some(output);
      effects := effects + AfterSuccess(input, output, cfg);
    case Some(e) =>
      item.status := Failed;
      item.errorMessage := Some(Describe(e));
  }

  // ------------------------------------------------------------ properties

  function Spawns(effects: seq<Effect>): (r: seq<Spawn>)
    ensures |r| <= |effects|
  {
    if effects == [] then []
    else (if effects[0].Run? then [effects[0].spawn] else []) + Spawns(effects[1..])
  }

  lemma {:induction false} SpawnsConcat(a: seq<Effect>, b: seq<Effect>)
    ensures Spawns(a + b) == Spawns(a) + Spawns(b)
  {
    if a == [] {
      assert a + b == b;
    } else {
      var head: seq<Spawn> := if a[0].Run? then [a[0].spawn] else [];
      assert (a + b)[0] == a[0] && (a + b)[1..] == a[1..] + b;
      assert Spawns(a + b) == head + Spawns(a[1..] + b);
      SpawnsConcat(a[1..], b);
      assert Spawns(a) == head + Spawns(a[1..]);
    }
  }

  /** The stages spawn processes and do nothing else. */
  lemma StagesOnlySpawn(input: FileURL, cfg: Config, env: Env)
    ensures forall e :: e in Stages(input, cfg, env).runs ==> e.Run?
  {
  }

  lemma SpawnsOfRuns(s: StageResult)
    ensures Spawns(Runs(s)) == if s.spawned.Some? then [s.spawned.value] else []
  {
    if s.spawned.Some? {
      assert Runs(s)[1..] == [];
    }
  }

  /** Clean-up and post-processing spawn nothing, so an item spawns what its
      stages spawned. */
  lemma {:induction false} ConversionSpawnsStages(input: FileURL, cfg: Config, env: Env)
    ensures Spawns(Conversion(input, cfg, env).effects) == Spawns(Stages(input, cfg, env).runs)
    ensures Conversion(input, cfg, env).terminal.Succeeded? <==> Stages(input, cfg, env).error.None?
    ensures Conversion(input, cfg, env).progress == Stages(input, cfg, env).progress
  {
    var output := env.safeOutput;
    var st := Stages(input, cfg, env);
    if st.error.None? {
      var m: seq<Effect> := if cfg.preserveMetadata then [CopyMetadata(input, output)] else [];
      var d: seq<Effect> := if cfg.deleteSourceFiles then [RemoveFile(Path(input))] else [];
      SpawnsConcat(m, d);
      assert AfterSuccess(input, output, cfg) == m + d;
      SpawnsConcat(TempCleanup(input), m + d);
      SpawnsConcat(st.runs, TempCleanup(input) + (m + d));
      assert st.runs + TempCleanup(input) + AfterSuccess(input, output, cfg) == st.runs + (TempCleanup(input) + (m + d));
    }
  }

  /** A directly encoded item spawns at most exhale, on its input, and
      exactly that when it succeeds. */
  lemma DirectSpawns(input: FileURL, cfg: Config, env: Env)
    requires RouteFor(input) == Direct
    ensures var st := Stages(input, cfg, env); var sp := Spawns(st.runs);
      |sp| <= 1 &&
      (|sp| == 1 ==> sp[0] == Spawn(ExhalePath(cfg), [Quality(cfg), Path(input), Path(env.safeOutput)])) &&
      (st.error.None? ==> |sp| == 1)
  {
    var exhale := ExhaleStage(cfg, input, env.safeOutput, env);
    ExhaleStageSpawnsAfterChecks(cfg, input, env.safeOutput, env);
    ExhaleStageSucceedsIff(cfg, input, env.safeOutput, env);
    SpawnsOfRuns(exhale);
  }

  /** A two-stage item spawns ffmpeg first, on its input; exhale only after
      ffmpeg succeeded, on the file ffmpeg wrote; and both when it succeeds. */
  lemma ViaWAVSpawns(input: FileURL, cfg: Config, env: Env)
    requires RouteFor(input) == ViaWAV
    ensures var st := Stages(input, cfg, env); var sp := Spawns(st.runs);
      var temp := Path(input) + ".temp.wav";
      |sp| <= 2 &&
      (|sp| >= 1 ==> sp[0] == Spawn(BundledFFmpegPath(env).value, FFmpegArguments(Path(input), temp))) &&
      (|sp| == 2 ==> sp[1] == Spawn(ExhalePath(cfg), [Quality(cfg), temp, Path(env.safeOutput)])) &&
      (|sp| == 2 ==> WAVStage(input, TempWAVURL(input), env).error.None?) &&
      (st.error.None? ==> |sp| == 2)
  {
    var tempURL := TempWAVURL(input);
    var wav := WAVStage(input, tempURL, env);
    SpawnsOfRuns(wav);
    if wav.error.None? {
      var exhale := ExhaleStage(cfg, tempURL, env.safeOutput, env);
      ExhaleStageSpawnsAfterChecks(cfg, tempURL, env.safeOutput, env);
      ExhaleStageSucceedsIff(cfg, tempURL, env.safeOutput, env);
      SpawnsOfRuns(exhale);
      SpawnsConcat(Runs(wav), Runs(exhale));
    }
  }

  /** The processes an item spawns, in order, whichever route it takes. */
  lemma ConversionSpawns(input: FileURL, cfg: Config, env: Env)
    ensures var o := Conversion(input, cfg, env); var sp := Spawns(o.effects);
      var temp := Path(input) + ".temp.wav";
      (RouteFor(input) == Direct ==>
        |sp| <= 1 &&
        (|sp| == 1 ==> sp[0] == Spawn(ExhalePath(cfg), [Quality(cfg), Path(input), Path(env.safeOutput)])) &&
        (o.terminal.Succeeded? ==> |sp| == 1)) &&
      (RouteFor(input) == ViaWAV ==>
        |sp| <= 2 &&
        (|sp| >= 1 ==> sp[0] == Spawn(BundledFFmpegPath(env).value, FFmpegArguments(Path(input), temp))) &&
        (|sp| == 2 ==> sp[1] == Spawn(ExhalePath(cfg), [Quality(cfg), temp, Path(env.safeOutput)])) &&
        (o.terminal.Succeeded? ==> |sp| == 2))
  {
    ConversionSpawnsStages(input, cfg, env);
    if RouteFor(input) == Direct {
      DirectSpawns(input, cfg, env);
    } else {
      ViaWAVSpawns(input, cfg, env);
    }
  }

  /** An item succeeds exactly when every stage it ran succeeded; it then
      records the safe output URL. A failed item carries the description of
      the first error thrown. */
  lemma ConversionTerminal(input: FileURL, cfg: Config, env: Env)
    ensures var o := Conversion(input, cfg, env);
      var temp := TempWAVURL(input);
      var wav := WAVStage(input, temp, env);
      var exhale := ExhaleStage(cfg, if RouteFor(input) == ViaWAV then temp else input, env.safeOutput, env);
      (o.terminal.Succeeded? <==> (RouteFor(input) == ViaWAV ==> wav.error.None?) && exhale.error.None?) &&
      (o.terminal.Succeeded? ==> o.terminal.output == env.safeOutput) &&
      (RouteFor(input) == ViaWAV && wav.error.Some? ==> o.terminal == FailedWith(Describe(wav.error.value))) &&
      ((RouteFor(input) == ViaWAV ==> wav.error.None?) && exhale.error.Some? ==>
        o.terminal == FailedWith(Describe(exhale.error.value)))
  {
  }

  /** A two-stage item whose bundled ffmpeg fails to launch or exits non-zero
      fails with that launch error's description or with ffmpeg's exit-code
      message; exhale is never reached. */
  lemma ViaWAVFFmpegFailure(input: FileURL, cfg: Config, env: Env)
    requires RouteFor(input) == ViaWAV && BundledFFmpegPath(env).Some?
    ensures var o := Conversion(input, cfg, env);
      (env.ffmpegRun.LaunchError? ==> o.terminal == FailedWith(env.ffmpegRun.description)) &&
      (env.ffmpegRun.Exited? && env.ffmpegRun.status != 0 ==>
        o.terminal == FailedWith("FFmpeg failed with exit code " + IntToString(env.ffmpegRun.status)))
  {
    ConversionTerminal(input, cfg, env);
    WAVStageSucceedsIff(input, TempWAVURL(input), env);
  }

  /** The temporary WAV file is removed only after a successful two-stage
      conversion; the source is removed only after success and only when
      asked to; metadata is copied only after success and only when asked
      to, and always before the source is removed. */
  lemma ConversionCleanup(input: FileURL, cfg: Config, env: Env)
    ensures var o := Conversion(input, cfg, env);
      (RemoveFile(Path(input) + ".temp.wav") in o.effects <==> RouteFor(input) == ViaWAV && o.terminal.Succeeded?) &&
      (RemoveFile(Path(input)) in o.effects <==> o.terminal.Succeeded? && cfg.deleteSourceFiles) &&
      (CopyMetadata(input, env.safeOutput) in o.effects <==> o.terminal.Succeeded? && cfg.preserveMetadata) &&
      (forall i, j ::
        0 <= i < |o.effects| && 0 <= j < |o.effects| &&
        o.effects[i] == CopyMetadata(input, env.safeOutput) && o.effects[j] == RemoveFile(Path(input))
        ==> i < j)
  {
    if Stages(input, cfg, env).error.None? {
      CleanupAfterSuccess(input, cfg, env);
    } else {
      CleanupAfterFailure(input, cfg, env);
    }
  }

  /** The clauses of `ConversionCleanup` for one outcome. */
  ghost predicate CleanupRules(input: FileURL, cfg: Config, env: Env, o: ItemOutcome)
  {
    (RemoveFile(Path(input) + ".temp.wav") in o.effects <==> RouteFor(input) == ViaWAV && o.terminal.Succeeded?) &&
    (RemoveFile(Path(input)) in o.effects <==> o.terminal.Succeeded? && cfg.deleteSourceFiles) &&
    (CopyMetadata(input, env.safeOutput) in o.effects <==> o.terminal.Succeeded? && cfg.preserveMetadata) &&
    (forall i, j ::
      0 <= i < |o.effects| && 0 <= j < |o.effects| &&
      o.effects[i] == CopyMetadata(input, env.safeOutput) && o.effects[j] == RemoveFile(Path(input))
      ==> i < j)
  }

  lemma CleanupAfterSuccess(input: FileURL, cfg: Config, env: Env)
    requires Stages(input, cfg, env).error.None?
    ensures CleanupRules(input, cfg, env, Conversion(input, cfg, env))
  {
    var output := env.safeOutput;
    var o := Conversion(input, cfg, env);
    var st := Stages(input, cfg, env);
    StagesOnlySpawn(input, cfg, env);
    var tempPath := Path(input) + ".temp.wav";
    assert tempPath != Path(input) by { assert |tempPath| > |Path(input)|; }
    var pre := st.runs + TempCleanup(input);
    var post := AfterSuccess(input, output, cfg);
    assert o.effects == pre + post && o.terminal.Succeeded?;
    assert forall e :: e in pre ==> e.Run? || e == RemoveFile(tempPath);
    assert RemoveFile(tempPath) in pre <==> RouteFor(input) == ViaWAV;
    assert RemoveFile(tempPath) !in post;
    MetadataBeforeRemoval(pre, input, output, cfg);
  }

  /** After effects `pre` that neither copy metadata nor remove the source,
      the metadata copy comes before the source's removal. */
  lemma MetadataBeforeRemoval(pre: seq<Effect>, input: FileURL, output: FileURL, cfg: Config)
    requires CopyMetadata(input, output) !in pre && RemoveFile(Path(input)) !in pre
    ensures var e := pre + AfterSuccess(input, output, cfg);
      forall i, j ::
        (0 <= i < |e| && 0 <= j < |e| && e[i] == CopyMetadata(input, output) && e[j] == RemoveFile(Path(input)))
        ==> i < j
  {
    var post := AfterSuccess(input, output, cfg);
    var e := pre + post;
    forall i, j | 0 <= i < |e| && 0 <= j < |e| && e[i] == CopyMetadata(input, output) && e[j] == RemoveFile(Path(input))
      ensures i < j
    {
      assert i >= |pre| && j >= |pre|;
      assert post[i - |pre|] == CopyMetadata(input, output);
      assert post[j - |pre|] == RemoveFile(Path(input));
    }
  }

  lemma CleanupAfterFailure(input: FileURL, cfg: Config, env: Env)
    requires Stages(input, cfg, env).error.Some?
    ensures CleanupRules(input, cfg, env, Conversion(input, cfg, env))
  {
    StagesOnlySpawn(input, cfg, env);
  }

  /** The metadata and source-deletion settings never change how an item ends
      or the progress written to it. */
  lemma PostProcessingCannotChangeStatus(input: FileURL, cfg: Config, env: Env, preserve: bool, delete: bool)
    ensures var other := cfg.(preserveMetadata := preserve, deleteSourceFiles := delete);
      Conversion(input, cfg, env).terminal == Conversion(input, other, env).terminal &&
      Conversion(input, cfg, env).progress == Conversion(input, other, env).progress
  {
    var other := cfg.(preserveMetadata := preserve, deleteSourceFiles := delete);
    assert Stages(input, cfg, env) == Stages(input, other, env);
  }

  /** Weighted exhale reports never go down and stay within [0, 1]; a
      two-stage item's reports start above its 0.5 checkpoint. */
  lemma WeightedTickerShape(route: Route, polls: nat)
    ensures var w := WeightedReports(route, TickerReports(polls));
      NonDecreasing(w) && (forall i :: 0 <= i < |w| ==> 10 <= w[i] <= 100)
      && (route == ViaWAV ==> forall i :: 0 <= i < |w| ==> 55 <= w[i])
      && (forall i :: 0 <= i < |w| && w[i] == 100 ==> i == |w| - 1)
  {
    TickerReportsShape(polls);
    var r := TickerReports(polls);
    var w := WeightedReports(route, r);
    forall i | 0 <= i < |w| && w[i] == 100 ensures i == |w| - 1 {
      assert r[i] == 10;
    }
  }

  /** Prefixing checkpoints no larger than every later value keeps a
      non-decreasing sequence non-decreasing. */
  lemma PrefixNonDecreasing(c: seq<nat>, w: seq<nat>)
    requires NonDecreasing(c) && NonDecreasing(w)
    requires forall i, j :: 0 <= i < |c| && 0 <= j < |w| ==> c[i] <= w[j]
    ensures NonDecreasing(c + w)
  {
    var s := c + w;
    forall i, j | 0 <= i < j < |s| ensures s[i] <= s[j] {
      if j < |c| { assert s[i] == c[i] && s[j] == c[j]; }
      else if i < |c| { assert s[i] == c[i] && s[j] == w[j - |c|]; }
      else { assert s[i] == w[i - |c|] && s[j] == w[j - |c|]; }
    }
  }

  /** The progress written by the stages, after the initial 0, never goes
      down, stays within [0, 1] and reaches 1.0 only as its last value. */
  predicate WellShapedProgress(p: seq<nat>)
  {
    NonDecreasing(p) && (forall i :: 0 <= i < |p| ==> p[i] <= 100)
    && (forall i :: 0 <= i < |p| && p[i] == 100 ==> i == |p| - 1)
  }

  lemma StagesProgressDirect(input: FileURL, cfg: Config, env: Env)
    requires RouteFor(input) == Direct
    ensures WellShapedProgress([0] + Stages(input, cfg, env).progress)
  {
    var exhale := ExhaleStage(cfg, input, env.safeOutput, env);
    ExhaleStageReports(cfg, input, env.safeOutput, env);
    var w := WeightedReports(Direct, exhale.reports);
    if exhale.reports != [] {
      WeightedTickerShape(Direct, env.exhaleRun.pollsWhileRunning);
    }
    assert Stages(input, cfg, env).progress == w;
    PrefixNonDecreasing([0], w);
  }

  lemma StagesProgressViaWAV(input: FileURL, cfg: Config, env: Env)
    requires RouteFor(input) == ViaWAV
    ensures var p := [0] + Stages(input, cfg, env).progress;
      WellShapedProgress(p) && p[1] == 10 && (|p| > 2 ==> p[2] == 50)
  {
    if WAVStage(input, TempWAVURL(input), env).error.None? {
      StagesProgressEncoded(input, cfg, env);
    } else {
      assert Stages(input, cfg, env).progress == [10];
    }
  }

  /** A two-stage item whose ffmpeg run succeeded writes 0.1, 0.5 and then
      exhale's rescaled reports. */
  lemma StagesProgressEncoded(input: FileURL, cfg: Config, env: Env)
    requires RouteFor(input) == ViaWAV && WAVStage(input, TempWAVURL(input), env).error.None?
    ensures var p := [0] + Stages(input, cfg, env).progress;
      WellShapedProgress(p) && p[..3] == [0, 10, 50]
  {
    var temp := TempWAVURL(input);
    var reports := ExhaleStage(cfg, temp, env.safeOutput, env).reports;
    assert Stages(input, cfg, env).progress == [10, 50] + WeightedReports(ViaWAV, reports);
    ExhaleStageReports(cfg, temp, env.safeOutput, env);
    if env.exhaleRun.Exited? {
      EncodedProgressShape(reports, env.exhaleRun.pollsWhileRunning);
    } else {
      EncodedProgressShape(reports, 0);
    }
  }

  /** The checkpoints 0, 0.1 and 0.5 followed by rescaled ticker reports are
      well shaped. */
  lemma EncodedProgressShape(reports: seq<nat>, polls: nat)
    requires reports == [] || reports == TickerReports(polls)
    ensures var p := [0, 10, 50] + WeightedReports(ViaWAV, reports);
      WellShapedProgress(p) && p[..3] == [0, 10, 50]
  {
    var w := WeightedReports(ViaWAV, reports);
    if reports != [] {
      WeightedTickerShape(ViaWAV, polls);
    }
    PrefixNonDecreasing([0, 10, 50], w);
    assert ([0, 10, 50] + w)[..3] == [0, 10, 50];
  }

  /** Starting from the 0 written when the item starts, the progress written
      to an item never goes down and never leaves [0, 1]; 1.0 is written only
      as the last value. A two-stage item passes 0.1, then 0.5 once ffmpeg
      succeeded. */
  lemma ConversionProgress(input: FileURL, cfg: Config, env: Env)
    ensures var p := [0] + Conversion(input, cfg, env).progress;
      WellShapedProgress(p) && (RouteFor(input) == ViaWAV ==> p[1] == 10 && (|p| > 2 ==> p[2] == 50))
  {
    ConversionSpawnsStages(input, cfg, env);
    if RouteFor(input) == Direct {
      StagesProgressDirect(input, cfg, env);
    } else {
      StagesProgressViaWAV(input, cfg, env);
    }
  }

  /** With no exhale path set, no item is encoded: every item fails, a
      directly encoded one without spawning anything, a two-stage one after
      at most the ffmpeg run. */
  lemma UnsetExhalePathFailsEveryItem(input: FileURL, cfg: Config, env: Env)
    requires ExhalePath(cfg) == ""
    ensures var o := Conversion(input, cfg, env);
      o.terminal.FailedWith? &&
      (o.terminal.message == "Exhale executable path not set. Please set it in Settings."
        || RouteFor(input) == ViaWAV) &&
      |Spawns(o.effects)| == (if RouteFor(input) == ViaWAV && BundledFFmpegPath(env).Some? then 1 else 0)
  {
    ConversionSpawns(input, cfg, env);
    if RouteFor(input) == Direct {
      assert Stages(input, cfg, env).runs == [];
    }
  }

  /** Starting and finishing a pending item leaves it consistent: completed
      with a result, or failed with a message. */
  lemma ConvertedStaysConsistent(s: ItemState, cfg: Config, env: Env)
    requires Consistent(s) && s.status == Pending
    ensures Consistent(Begun(s))
    ensures var r := Finished(Begun(s), Conversion(s.input, cfg, env));
      Consistent(r) && (r.status == Completed || r.status == Failed)
  {
    ConversionProgress(s.input, cfg, env);
    var p := Conversion(s.input, cfg, env).progress;
    if p != [] {
      assert ([0] + p)[|p|] == p[|p| - 1];
    }
  }
}
