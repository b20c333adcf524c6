/**
 * The parsed YAML of a diff code block, the clock reading, and the two error
 * messages, shared by both copies of the range compiler.
 *
 * Both copies take the configuration untyped and test its fields for truthiness.
 * A `from` is a string whose empty value stands for every falsy or missing `from`.
 * A `to` may be missing: the two copies treat a missing `to` differently per mode.
 */
module DiffConfig {
  import opened Wrappers
  import opened JsText

  datatype Commits = Commits(from: string, to: Option<string>)

  datatype Dates = Dates(from: string, to: Option<string>)

  /** The `exclude` key: absent, an array of paths, or a single path. */
  datatype Exclude = Absent | Many(paths: seq<string>) | One(path: string)

  /**
   * `NoConfig` is every falsy parse result (an empty block parses to null).
   * A falsy `commits` or `dates` is None.
   */
  datatype Config =
    | NoConfig
    | Cfg(commits: Option<Commits>, dates: Option<Dates>, exclude: Exclude)

  /** One reading of the wall clock, formatted `YYYY-MM-DD` in local time. */
  datatype Clock = Clock(today: string, yesterday: string)

  /** The YAML object `{dates: {from, to}}` inserted by the "diff for today" command. */
  datatype DailyDiffConfig = DailyDiffConfig(from: string, to: string)

  const CommitsError: string := "Commits must have a `from` and `to` property"

  const DatesError: string := "Dates must have a `from` property"

  /** A template literal's `${v}` for a string that may be undefined. */
  function Interpolate(v: Option<string>): (r: string)
    ensures r == v.GetOr("undefined")
  {
    match v
    case Some(s) => s
    case None => "undefined"
  }

  /**
   * A template literal's `${exclude}`: an array of strings becomes its elements
   * joined by commas (`Array.prototype.toString`), a missing key "undefined".
   */
  function ExcludeText(e: Exclude): (r: string)
    ensures e.One? ==> r == e.path
    ensures e.Absent? ==> r == "undefined"
    ensures e == Many([]) ==> r == ""
    ensures e.Many? && |e.paths| >= 1 && (forall i :: 0 <= i < |e.paths| ==> ',' !in e.paths[i])
            ==> SplitOn(r, ',') == e.paths
  {
    var r := match e
      case Absent => "undefined"
      case Many(paths) => Join(",", paths)
      case One(path) => path;
    if e.Many? && |e.paths| >= 1 && (forall i :: 0 <= i < |e.paths| ==> ',' !in e.paths[i])
    then SplitJoin(e.paths, ','); r
    else r
  }
}
