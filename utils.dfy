/**
 * The current copy of the range compiler (src/utils.ts): the revision range and
 * the exclusion pathspecs handed to `git diff`, and the code block inserted by the
 * "Generate diff code block for today" command.
 *
 * `moment()` is replaced by the `Clock` parameter and `stringifyYaml` by a
 * function parameter; both are read at call time.
 */
module Utils {
  import opened Wrappers
  import opened JsText
  import opened DiffConfig
  import GitSyntax
  import Markdown

  /** The fence language the code-block processor of src/main.ts is registered for. */
  const FenceLanguage: string := "show-diff"

  /** The YAML object `{dates: {from: yesterday, to: today}}` for one clock reading. */
  function CreateDailyDiffConfig(clock: Clock): (c: DailyDiffConfig)
    ensures c.from == clock.yesterday && c.to == clock.today
  {
    DailyDiffConfig(clock.yesterday, clock.today)
  }

  /** The block reads back, under its fence, as the trimmed YAML of yesterday..today at call time. */
  function CreateDailyDiffCodeBlock(clock: Clock, stringifyYaml: DailyDiffConfig -> string): (block: string)
    ensures Markdown.ExtractFencedBody(FenceLanguage, block)
         == Some(TrimEnd(stringifyYaml(DailyDiffConfig(clock.yesterday, clock.today))))
  {
    var yaml := TrimEnd(stringifyYaml(CreateDailyDiffConfig(clock)));
    "```" + FenceLanguage + "\n" + yaml + "\n```"
  }

  /** Two calls insert the same block exactly when the trimmed YAML for their clocks agrees. */
  lemma DailyBlockFollowsClock(c1: Clock, c2: Clock, stringifyYaml: DailyDiffConfig -> string)
    ensures (CreateDailyDiffCodeBlock(c1, stringifyYaml) == CreateDailyDiffCodeBlock(c2, stringifyYaml))
        <==> (TrimEnd(stringifyYaml(DailyDiffConfig(c1.yesterday, c1.today)))
              == TrimEnd(stringifyYaml(DailyDiffConfig(c2.yesterday, c2.today))))
  {
  }

  /** `HEAD@{from}..HEAD@{to}`: the reflog reader gives back both dates unchanged when `from` holds no `}`. */
  function GetDateRange(from: string, to: string): (r: string)
    ensures '}' !in from ==> GitSyntax.ParseReflogRange(r) == Some((from, to))
  {
    var r := "HEAD@{" + from + "}..HEAD@{" + to + "}";
    if '}' !in from then GitSyntax.ReflogRangeRoundTrip(from, to); r else r
  }

  function GetDefaultDateRange(clock: Clock): (r: string)
    ensures '}' !in clock.yesterday ==> GitSyntax.ParseReflogRange(r) == Some((clock.yesterday, clock.today))
  {
    GetDateRange(clock.yesterday, clock.today)
  }

  /** `from..to`: the range reader gives back both ends unchanged when `from` is a valid range end. */
  function GetCommitRange(from: string, to: string): (r: string)
    ensures GitSyntax.IsRangeEnd(from) ==> GitSyntax.ParseCommitRange(r) == Some((from, to))
  {
    var r := from + ".." + to;
    if GitSyntax.IsRangeEnd(from) then GitSyntax.CommitRangeRoundTrip(from, to); r else r
  }

  /** One `:(exclude)` pathspec naming `path` verbatim, with no escaping. */
  function ExcludePath(path: string): (r: string)
    ensures GitSyntax.ParsePathspec(r) == Some(path)
    ensures ' ' !in path ==> ' ' !in r
  {
    GitSyntax.ExcludeMagic + path
  }

  /**
   * The revision range: commits take priority over dates, a falsy `from` in the
   * chosen mode is an error, and without a mode the range is yesterday..today.
   */
  function CreateRangeArg(config: Config, clock: Clock): (r: Result<string>)
    ensures config.NoConfig? || (config.commits.None? && config.dates.None?) ==>
      r == Ok("HEAD@{" + clock.yesterday + "}..HEAD@{" + clock.today + "}")
    ensures config.Cfg? && config.commits.Some? ==>
      var c := config.commits.value;
      r == if c.from == "" then Err(CommitsError) else Ok(c.from + ".." + Interpolate(c.to))
    ensures config.Cfg? && config.commits.None? && config.dates.Some? ==>
      var d := config.dates.value;
      r == if d.from == "" then Err(DatesError)
           else Ok("HEAD@{" + d.from + "}..HEAD@{" + d.to.GetOr(clock.today) + "}")
  {
    if config.NoConfig? then Ok(GetDefaultDateRange(clock))
    else if config.commits.Some? then
      var c := config.commits.value;
      if c.from == "" then Err(CommitsError)
      else Ok(GetCommitRange(c.from, Interpolate(c.to)))
    else if config.dates.Some? then
      var d := config.dates.value;
      var to := d.to.GetOr(clock.today);
      if d.from == "" then Err(DatesError)
      else Ok(GetDateRange(d.from, to))
    else Ok(GetDefaultDateRange(clock))
  }

  /** Only `from` is checked in commit mode: a missing `to` still yields a range. */
  lemma CommitsToNotChecked(from: string, dates: Option<Dates>, exclude: Exclude, clock: Clock)
    requires from != ""
    ensures CreateRangeArg(Cfg(Some(Commits(from, None)), dates, exclude), clock).Ok?
  {
  }

  /** In commit mode the range reader gives back the configured `from` and `to`. */
  lemma CommitModeRoundTrip(config: Config, clock: Clock)
    requires config.Cfg? && config.commits.Some?
    requires config.commits.value.from != "" && GitSyntax.IsRangeEnd(config.commits.value.from)
    ensures CreateRangeArg(config, clock).Ok?
    ensures GitSyntax.ParseCommitRange(CreateRangeArg(config, clock).value)
         == Some((config.commits.value.from, Interpolate(config.commits.value.to)))
  {
    var c := config.commits.value;
    assert CreateRangeArg(config, clock).value == GetCommitRange(c.from, Interpolate(c.to));
  }

  /** In date mode the reflog reader gives back `from` and the given `to`, or today when `to` is missing. */
  lemma DateModeRoundTrip(config: Config, clock: Clock)
    requires config.Cfg? && config.commits.None? && config.dates.Some?
    requires config.dates.value.from != "" && '}' !in config.dates.value.from
    ensures CreateRangeArg(config, clock).Ok?
    ensures GitSyntax.ParseReflogRange(CreateRangeArg(config, clock).value)
         == Some((config.dates.value.from, config.dates.value.to.GetOr(clock.today)))
  {
    var d := config.dates.value;
    assert CreateRangeArg(config, clock).value == GetDateRange(d.from, d.to.GetOr(clock.today));
  }

  /** The space-separated exclusion pathspecs: one per configured path, in order. */
  function GetExcludedPaths(config: Config): (r: string)
    ensures config.NoConfig? ==> r == ":(exclude).obsidian"
    ensures config.Cfg? && config.exclude.One? ==> r == ":(exclude)" + config.exclude.path
    ensures config.Cfg? && config.exclude.Absent? ==> r == ":(exclude)undefined"
    ensures config.Cfg? && config.exclude == Many([]) ==> r == ""
    ensures config.Cfg? && config.exclude.Many? && |config.exclude.paths| == 1
         ==> r == ":(exclude)" + config.exclude.paths[0]
    ensures config.Cfg? && config.exclude.Many?
         && (forall i :: 0 <= i < |config.exclude.paths| ==> ' ' !in config.exclude.paths[i])
         ==> GitSyntax.ParseExcludeList(r) == Some(config.exclude.paths)
  {
    if config.NoConfig? then ExcludePath(".obsidian")
    else match config.exclude
      case Many(paths) =>
        var pathspecs := seq(|paths|, i requires 0 <= i < |paths| => ExcludePath(paths[i]));
        if forall i :: 0 <= i < |paths| ==> ' ' !in paths[i] then
          ExcludeListRoundTrip(paths, pathspecs);
          Join(" ", pathspecs)
        else Join(" ", pathspecs)
      case _ =>
        assert ExcludeText(Absent) == "undefined";
        assert ExcludePath("undefined") == ":(exclude)undefined";
        ExcludePath(ExcludeText(config.exclude))
  }

  lemma {:induction false} ParseEachExcludePath(paths: seq<string>, pathspecs: seq<string>)
    requires |pathspecs| == |paths|
    requires forall i :: 0 <= i < |paths| ==> pathspecs[i] == ExcludePath(paths[i])
    ensures GitSyntax.ParseEachPathspec(pathspecs) == Some(paths)
  {
    if paths != [] {
      ParseEachExcludePath(paths[1..], pathspecs[1..]);
      assert [paths[0]] + paths[1..] == paths;
    }
  }

  /** Each pathspec adds the ten characters of `:(exclude)` to its path. */
  lemma {:induction false} ExcludePathsTotalLength(paths: seq<string>, pathspecs: seq<string>)
    requires |pathspecs| == |paths|
    requires forall i :: 0 <= i < |paths| ==> pathspecs[i] == ExcludePath(paths[i])
    ensures TotalLength(pathspecs) == |GitSyntax.ExcludeMagic| * |paths| + TotalLength(paths)
  {
    if paths != [] {
      ExcludePathsTotalLength(paths[1..], pathspecs[1..]);
    }
  }

  lemma ExcludeListRoundTrip(paths: seq<string>, pathspecs: seq<string>)
    requires |pathspecs| == |paths|
    requires forall i :: 0 <= i < |paths| ==> pathspecs[i] == ExcludePath(paths[i])
    requires forall i :: 0 <= i < |paths| ==> ' ' !in paths[i]
    ensures GitSyntax.ParseExcludeList(Join(" ", pathspecs)) == Some(paths)
  {
    ParseEachExcludePath(paths, pathspecs);
    if paths != [] {
      var s := Join(" ", pathspecs);
      SplitJoin(pathspecs, ' ');
      assert s != "";
    }
  }

  /** Adding a path to the array adds one separator and its pathspec at the end. */
  lemma ExcludedPathsAppend(commits: Option<Commits>, dates: Option<Dates>, paths: seq<string>, path: string)
    requires paths != []
    ensures GetExcludedPaths(Cfg(commits, dates, Many(paths + [path])))
         == GetExcludedPaths(Cfg(commits, dates, Many(paths))) + " " + ":(exclude)" + path
  {
    var pathspecs := seq(|paths|, i requires 0 <= i < |paths| => ExcludePath(paths[i]));
    var longer := paths + [path];
    assert seq(|longer|, i requires 0 <= i < |longer| => ExcludePath(longer[i]))
        == pathspecs + [ExcludePath(path)];
    JoinSnoc(" ", pathspecs, ExcludePath(path));
  }
}
