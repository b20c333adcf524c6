# Render-diff range compiler

A Dafny model of the one piece of original logic in an Obsidian plugin that renders
`git diff` output inside a note. The plugin reads a fenced code block whose body is
YAML, for example `dates: {from: 2023-01-01}`, `commits: {from: a, to: b}` or
`exclude: [x, y]`. Its range compiler turns that configuration into the two arguments
it passes to `git diff`:

- the revision range. A commit range is `A..B`. A date range uses git's reflog date
  syntax `HEAD@{<date>}..HEAD@{<date>}`. Both forms are described in the "Specifying
  revisions" section of gitrevisions(7).
- the exclusion pathspecs, which use the `:(exclude)` magic from the "pathspec" entry of
  gitglossary(7).

A companion function builds the "diff for today" code block that an editor command
inserts.

The compiler exists in two copies, and both are modelled:

- `Utils` models the current copy (`src/utils.ts`).
- `LegacyMain` models the older copy in the plugin's entry module (`main.ts`).

Modules:

- `DiffConfig` holds the configuration datatypes. `from` is a string, and `""` stands
  for every missing or falsy `from`. `to` is an `Option`. `exclude` is `Absent`, `Many`
  (an array) or `One` (a single string). There is also the clock reading and the two
  error messages.
- `Utils` and `LegacyMain` hold the two copies. A thrown `Error` becomes
  `Err(message)`, so an error never comes with a partial result.
- `GitSyntax` holds the model's inverse readers for both arguments. It splits `A..B` at
  its first `..`, reads the two reflog dates out of `HEAD@{..}..HEAD@{..}` (the first
  date ends at the first `}`), and splits a space-separated list of `:(exclude)`
  pathspecs at every space. The compiler is proved against these inverses. They are not
  git's own parser. git splits any range at its first `..`. It therefore agrees with the
  reflog reader only when the `from` date holds no `..`. It agrees with the commit reader
  only when `to` also does not start with `.`, because `a...b` is a symmetric difference.
- `Markdown` reads a fenced block back as the note application hands its body to a
  code-block processor.
- `JsText` models `join`, `trimEnd` (with the ECMAScript white-space set) and
  single-character `split`.
- `Markdown` and `GitSyntax` are partner definitions, not models of source code, so they
  have no rows in the table below.

Some behaviour comes from the code, not from the plugin's stated intent:

- A present configuration with no `exclude` key does not fall back to `.obsidian`.
  Both copies interpolate the missing value (src/utils.ts:74-80, main.ts:92-98). The
  model keeps this as the explicit `Absent` variant, which yields `:(exclude)undefined`.
- In commit mode, the error message asks for `from` and `to`, but only `from` is
  checked. A missing `to` is interpolated as `undefined`.
- In date mode, a missing `to` defaults to today. The destructuring default fires only
  when the key is absent, so `to: ""` is kept as given.

All functions are pure. The same configuration and the same clock reading therefore
always give the same output.

## Model

| member | source | states |
|---|---|---|
| `Utils.CreateDailyDiffCodeBlock` | src/utils.ts:3-23 | the inserted block is fenced `show-diff`, and its body reads back as the `trimEnd` of the YAML of `{dates: {from: yesterday, to: today}}`, taken at call time |
| `Utils.CreateDailyDiffConfig` | src/utils.ts:3-10 | the daily configuration's `from` is the clock's yesterday and its `to` is the clock's today |
| `Utils.DailyBlockFollowsClock` | src/utils.ts:12-23 | two calls give the same block if and only if the trimmed YAML for their two clock readings is the same |
| `Utils.GetDateRange` | src/utils.ts:25-27 | whenever `from` contains no `}`, the reflog reader gives back `from` and `to` unchanged, with no date validation |
| `Utils.GetDefaultDateRange` | src/utils.ts:29-31 | the default range reads back as (yesterday, today) whenever yesterday contains no `}`, as a `YYYY-MM-DD` date never does |
| `Utils.GetCommitRange` | src/utils.ts:33-35 | whenever `from` is a valid range end (no `..`, no trailing `.`), the range reader gives back `from` and `to` from `from..to` |
| `Utils.ExcludePath` | src/utils.ts:37-39 | the result is one `:(exclude)` pathspec whose path is the argument verbatim, with no escaping; it contains no space if the path contains none |
| `Utils.CreateRangeArg` | src/utils.ts:41-67 | no config, or neither mode set: `HEAD@{yesterday}..HEAD@{today}`; commits take priority and give `from..to`, or the commits error when `from` is falsy, whatever `dates` holds; otherwise dates give `HEAD@{from}..HEAD@{to or today}`, or the dates error when `from` is falsy |
| `Utils.CommitsToNotChecked` | src/utils.ts:48-55 | commit mode with a non-empty `from` and no `to` still succeeds, because only `from` is checked |
| `Utils.CommitModeRoundTrip` | src/utils.ts:48-55 | in commit mode, with a non-empty `from` that is a valid range end (no `..`, no trailing `.`), the range reader gives back the configured `from` and the interpolated `to` from the result |
| `Utils.DateModeRoundTrip` | src/utils.ts:57-63 | in date mode, with a non-empty `from` that contains no `}`, the reflog reader gives back `from` and the given `to`, or today when `to` is missing |
| `Utils.GetExcludedPaths` | src/utils.ts:69-81 | no config gives `:(exclude).obsidian`; a string `s` gives `:(exclude)s`; a missing key gives `:(exclude)undefined`; an empty array gives `""`; a one-path array `[p]` gives `:(exclude)p` for any `p`; an array of space-free paths reads back as exactly those paths, in order, without deduplication |
| `Utils.ExcludeListRoundTrip` | src/utils.ts:76-78 | for space-free paths, joining the per-path pathspecs with single spaces and splitting them again gives back the paths |
| `Utils.ExcludePathsTotalLength` | src/utils.ts:76-77 | the mapped pathspecs are together ten characters per path longer than the paths |
| `Utils.ExcludedPathsAppend` | src/utils.ts:76-78 | appending a path to a non-empty array appends exactly one space and that path's pathspec, for any path |
| `JsText.Join` | src/utils.ts:77 | `join` of an empty array is `""`; otherwise the result starts with the first element and is as long as all the elements plus one separator between each pair of neighbours |
| `DiffConfig.Interpolate` | src/utils.ts:54 | `${to}` is the string itself, or `undefined` when `to` is missing |
| `DiffConfig.ExcludeText` | main.ts:98 | `${exclude}`: a string is itself, a missing key is `undefined`, an empty array is `""`, and a non-empty array of comma-free paths is comma-joined so that splitting at commas gives back the paths |
| `JsText.TrimEnd` | src/utils.ts:21 | `trimEnd` returns a prefix of its input that does not end in white space, and everything it cuts off is white space |
| `JsText.TrimEndUnique` | src/utils.ts:21 | those three properties determine the result of `trimEnd` |
| `LegacyMain.LoadModule` | main.ts:31-36 | `DAILY_DIFF_CONFIG` is yesterday..today as read from the clock when the module is loaded |
| `LegacyMain.CreateDailyDiffCodeBlock` | main.ts:38-41 | the block is fenced `render-diff`, and its body reads back as the trimmed YAML of the module constant; no clock is read at call time |
| `LegacyMain.DailyBlockFrozenAtLoad` | main.ts:31-41 | the block's body is what the current copy would have produced at load time, and it differs from the current copy's body for any later clock whose YAML differs |
| `LegacyMain.GetDateRange` | main.ts:43-45 | same result as the current copy's `getDateRange` |
| `LegacyMain.GetDefaultDateRange` | main.ts:47-49 | same result as the current copy's `getDefaultDateRange` |
| `LegacyMain.GetCommitRange` | main.ts:51-53 | same result as the current copy's `getCommitRange` |
| `LegacyMain.ExcludePath` | main.ts:55-57 | same result as the current copy's `excludePath` |
| `LegacyMain.CreateRangeArg` | main.ts:59-85 | same result as the current copy for every input; a non-empty `commits.from` gives exactly `from..to`; an error occurs if and only if the selected mode (commits first) has a falsy `from` |
| `LegacyMain.GetExcludedPaths` | main.ts:87-99 | no config gives `:(exclude).obsidian`; otherwise the result is always a single pathspec of the text of `exclude`, so the array branch has no effect, and for non-arrays it equals the current copy |
| `LegacyMain.ArrayBranchAgreesOnlyForOnePath` | main.ts:94-98 | for any array of paths, the older copy agrees with the current one if and only if the array holds exactly one path |
| `LegacyMain.ArrayBranchCounterexample` | main.ts:94-98 | `exclude: [a, b]` gives `:(exclude)a,b` in the older copy and `:(exclude)a :(exclude)b` in the current one |

## Left out

- The plugin classes are not modelled: `onload`, code-block processor registration, editor commands, `getBasePath`/`getVaultPath`, settings load/save and the settings tab (main.ts:101-125, 166-208; src/main.ts:30-50). They are integration with the host application.
- The `git diff` process call (main.ts:127-135) is not modelled. The `gitDiff` that src/main.ts imports is not part of this model. Both run an external process.
- The diff2html `parse`/`html` renderer, HTML sanitising, DOM insertion and the try/catch error display are not modelled. They are a third-party renderer and DOM work.
- The SVG icon templates are not modelled. They are static assets.
- `moment()` date arithmetic and formatting are not modelled. The `Clock` parameter supplies today and yesterday as already formatted strings. The source reads the clock once for `from` and once for `to`. The model uses one reading, so it does not cover a call that crosses midnight between the two reads.
- `parseYaml` is not modelled. Its result is taken as a `Config` value.
- `stringifyYaml` is an opaque function parameter. Nothing is assumed about it, so the model does not promise that different clock readings give different blocks.
- How git reads the exclusion argument is not modelled. At the call site in main.ts:130-134, `getExcludedPaths(config)` is passed as one argument, and no shell splits it. git therefore reads `:(exclude)a :(exclude)b` as one pathspec whose path is `a :(exclude)b`. The round-trip lemmas are about the space-joined text, not about git's reading of it. The call site of the current copy (`gitDiff`) is not part of this model.
- `Utils.GetDateRange`: the read-back property covers only a `from` without `}`. For any other `from` the function still returns the verbatim `HEAD@{from}..HEAD@{to}`. `Utils.CreateRangeArg`'s ensures states that verbatim string for every date-mode `from`.
- `Utils.GetCommitRange`: the read-back property covers only a `from` that is a valid range end. For any other `from` the function still returns the verbatim `from..to`. `Utils.CreateRangeArg`'s ensures states that verbatim string for every commit-mode `from`.
- Some JavaScript values are not modelled: non-string scalars (numbers, booleans, `null`) in `from`, `to` or `exclude`, and non-string array entries. The model covers strings, absent keys and arrays of strings. Among the coercions, only `${undefined}` and an array of strings in a template literal (`Array.prototype.toString`, a comma join) are written out.
- `Utils.GetExcludedPaths`: the read-back property is stated only for paths without spaces. A path containing a space cannot be told apart from two pathspecs. For paths that may contain spaces, the result is fixed another way. The contract's one-path case gives the result for `[p]`, and `Utils.ExcludedPathsAppend` gives each longer array from the array one shorter.

## Findings

| source | as written | input that shows it | evidently intended | confidence | as-written member | corrected member |
|---|---|---|---|---|---|---|
| main.ts:94-98 | the array branch builds the joined pathspecs and discards them; the array then reaches `excludePath` whole and is stringified with commas | `exclude: ["a", "b"]` gives `:(exclude)a,b` | `:(exclude)a :(exclude)b`, the space-joined list with one `:(exclude)` entry per path, as the current copy returns (src/utils.ts:76-78) | high; not executed | `LegacyMain.ArrayBranchCounterexample` | `Utils.GetExcludedPaths` |
