/**
 * The older copy of the range compiler, in the plugin's entry module (main.ts).
 * Its range logic is that of the current copy; it differs in two places: the
 * array branch of `getExcludedPaths` drops the joined pathspecs, and the daily
 * configuration is a module constant evaluated once, when the module loads.
 */
module LegacyMain {
  import opened Wrappers
  import opened JsText
  import opened DiffConfig
  import GitSyntax
  import Markdown
  import Utils

  /** The fence language the code-block processor of main.ts is registered for. */
  const FenceLanguage: string := "render-diff"

  /** The module-level state of main.ts: `DAILY_DIFF_CONFIG`. */
  datatype ModuleState = ModuleState(dailyDiffConfig: DailyDiffConfig)

  /** Loading the module evaluates `DAILY_DIFF_CONFIG` from the clock at load time. */
  function LoadModule(loadClock: Clock): (m: ModuleState)
    ensures m.dailyDiffConfig == Utils.CreateDailyDiffConfig(loadClock)
  {
    ModuleState(DailyDiffConfig(loadClock.yesterday, loadClock.today))
  }

  /** The block reads back, under its fence, as the trimmed YAML of the module constant. */
  function CreateDailyDiffCodeBlock(m: ModuleState, stringifyYaml: DailyDiffConfig -> string): (block: string)
    ensures Markdown.ExtractFencedBody(FenceLanguage, block) == Some(TrimEnd(stringifyYaml(m.dailyDiffConfig)))
  {
    var yaml := TrimEnd(stringifyYaml(m.dailyDiffConfig));
    "```" + FenceLanguage + "\n" + yaml + "\n```"
  }

  /**
   * Whatever the clock says when the command runs, the block carries the dates of
   * the moment the module was loaded: the body the current copy would produce then.
   */
  lemma DailyBlockFrozenAtLoad(loadClock: Clock, callClock: Clock, stringifyYaml: DailyDiffConfig -> string)
    ensures Markdown.ExtractFencedBody(FenceLanguage, CreateDailyDiffCodeBlock(LoadModule(loadClock), stringifyYaml))
         == Markdown.ExtractFencedBody(Utils.FenceLanguage, Utils.CreateDailyDiffCodeBlock(loadClock, stringifyYaml))
    ensures TrimEnd(stringifyYaml(Utils.CreateDailyDiffConfig(callClock)))
         != TrimEnd(stringifyYaml(Utils.CreateDailyDiffConfig(loadClock)))
         ==> (Markdown.ExtractFencedBody(FenceLanguage, CreateDailyDiffCodeBlock(LoadModule(loadClock), stringifyYaml))
              != Markdown.ExtractFencedBody(Utils.FenceLanguage, Utils.CreateDailyDiffCodeBlock(callClock, stringifyYaml)))
  {
  }

  function GetDateRange(from: string, to: string): (r: string)
    ensures r == Utils.GetDateRange(from, to)
  {
    "HEAD@{" + from + "}..HEAD@{" + to + "}"
  }

  function GetDefaultDateRange(clock: Clock): (r: string)
    ensures r == Utils.GetDefaultDateRange(clock)
  {
    GetDateRange(clock.yesterday, clock.today)
  }

  function GetCommitRange(from: string, to: string): (r: string)
    ensures r == Utils.GetCommitRange(from, to)
  {
    from + ".." + to
  }

  function ExcludePath(path: string): (r: string)
    ensures r == Utils.ExcludePath(path)
  {
    ":(exclude)" + path
  }

  /** The same revision range as the current copy, commits first, for every input. */
  function CreateRangeArg(config: Config, clock: Clock): (r: Result<string>)
    ensures r == Utils.CreateRangeArg(config, clock)
    ensures config.Cfg? && config.commits.Some? && config.commits.value.from != "" ==>
      r == Ok(config.commits.value.from + ".." + Interpolate(config.commits.value.to))
    ensures r.Err? <==> (config.Cfg? &&
      if config.commits.Some? then config.commits.value.from == ""
      else config.dates.Some? && config.dates.value.from == "")
  {
    if config.NoConfig? then Ok(GetDefaultDateRange(clock))
    else if config.commits.Some? then
      var c := config.commits.value;
      if c.from == "" then Err(CommitsError)
      else Ok(GetCommitRange(c.from, Interpolate(c.to)))
    else if config.dates.Some? then
      var d := config.dates.value;
      var to := d.to.GetOr(clock.today);
      if d.from == "" then Err(DatesError)
      else Ok(GetDateRange(d.from, to))
    else Ok(GetDefaultDateRange(clock))
  }

  /**
   * The exclusion pathspec. The array branch computes the joined pathspecs and
   * drops them, so an array reaches `excludePath` whole and is turned into text
   * by the template literal: one pathspec for the comma-joined paths.
   */
  function GetExcludedPaths(config: Config): (r: string)
    ensures config.NoConfig? ==> r == ":(exclude).obsidian"
    ensures config.Cfg? ==> GitSyntax.ParsePathspec(r) == Some(ExcludeText(config.exclude))
    ensures config.Cfg? && !config.exclude.Many? ==> r == Utils.GetExcludedPaths(config)
  {
    if config.NoConfig? then ExcludePath(".obsidian")
    else
      var exclude := config.exclude;
      var dropped := if exclude.Many? then Join(" ", seq(|exclude.paths|, i requires 0 <= i < |exclude.paths| => ExcludePath(exclude.paths[i]))) else "";
      ExcludePath(ExcludeText(exclude))
  }

  /**
   * The older copy agrees with the current one on an array exactly when the array
   * holds a single path. Otherwise the two results differ in length: an empty array
   * gives `:(exclude)` against "", and n >= 2 paths of total length S give
   * M + S + (n - 1) characters against M * n + S + (n - 1), where M is the length
   * of the `:(exclude)` magic.
   */
  lemma ArrayBranchAgreesOnlyForOnePath(commits: Option<Commits>, dates: Option<Dates>, paths: seq<string>)
    ensures GetExcludedPaths(Cfg(commits, dates, Many(paths))) == Utils.GetExcludedPaths(Cfg(commits, dates, Many(paths)))
        <==> |paths| == 1
  {
    var config := Cfg(commits, dates, Many(paths));
    var pathspecs := seq(|paths|, i requires 0 <= i < |paths| => Utils.ExcludePath(paths[i]));
    var magic := |GitSyntax.ExcludeMagic|;
    assert Utils.GetExcludedPaths(config) == Join(" ", pathspecs);
    if |paths| == 0 {
      assert |GetExcludedPaths(config)| == magic;
    } else if |paths| == 1 {
      assert Join(",", paths) == paths[0];
      assert Join(" ", pathspecs) == pathspecs[0];
    } else {
      Utils.ExcludePathsTotalLength(paths, pathspecs);
      assert |GetExcludedPaths(config)| == magic + TotalLength(paths) + (|paths| - 1);
      assert |Utils.GetExcludedPaths(config)| == magic * |paths| + TotalLength(paths) + (|paths| - 1);
    }
  }

  /** `exclude: ["a", "b"]` yields `:(exclude)a,b`, not `:(exclude)a :(exclude)b`. */
  lemma ArrayBranchCounterexample()
    ensures GetExcludedPaths(Cfg(None, None, Many(["a", "b"]))) == ":(exclude)a,b"
    ensures Utils.GetExcludedPaths(Cfg(None, None, Many(["a", "b"]))) == ":(exclude)a :(exclude)b"
  {
    var paths := ["a", "b"];
    assert Join(",", paths) == "a,b";
    var pathspecs := seq(2, i requires 0 <= i < 2 => Utils.ExcludePath(paths[i]));
    assert pathspecs[0] == ":(exclude)a" && pathspecs[1] == ":(exclude)b";
    assert Join(" ", pathspecs) == ":(exclude)a :(exclude)b";
  }
}
