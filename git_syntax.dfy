/**
 * Inverse readers for the two arguments the range compiler hands to `git diff`:
 * the `<rev1>..<rev2>` range and the `<refname>@{<date>}` reflog form of the
 * "Specifying revisions" section of gitrevisions(7), and a space-separated list of
 * pathspecs with the `:(exclude)` magic of the "pathspec" entry of gitglossary(7).
 * They are the model's inverses of the compiler's output, not git's own parser.
 * git splits a range at its first "..": it agrees with ParseReflogRange only when
 * the `from` date holds no "..", and with ParseCommitRange only when, in addition
 * to IsRangeEnd(from), `to` does not start with "." (`a...b` is a symmetric
 * difference). ParseExcludeList undoes the space join; at the call site in main.ts
 * git receives the joined list as a single argument.
 */
module GitSyntax {
  import opened Wrappers
  import opened JsText

  /** The long form of the pathspec magic that removes matching paths. */
  const ExcludeMagic: string := ":(exclude)"

  /** The path of one `:(exclude)` pathspec, or None for anything else. */
  function ParsePathspec(p: string): Option<string>
  {
    if |p| >= |ExcludeMagic| && p[..|ExcludeMagic|] == ExcludeMagic
    then Some(p[|ExcludeMagic|..])
    else None
  }

  function ParseEachPathspec(ps: seq<string>): Option<seq<string>>
  {
    if ps == [] then Some([])
    else match (ParsePathspec(ps[0]), ParseEachPathspec(ps[1..]))
      case (Some(p), Some(rest)) => Some([p] + rest)
      case _ => None
  }

  /** The excluded paths of a space-separated list of `:(exclude)` pathspecs, split at every space. */
  function ParseExcludeList(s: string): Option<seq<string>>
  {
    if s == "" then Some([]) else ParseEachPathspec(SplitOn(s, ' '))
  }

  /**
   * What git-check-ref-format(1) forbids in a reference name and what matters for
   * reading `A..B` back at its first "..": `A` holds no ".." and does not end in "."
   * (otherwise the text would read as the symmetric difference `A...B`).
   */
  predicate IsRangeEnd(s: string)
  {
    && (forall i :: 0 <= i < |s| - 1 ==> !(s[i] == '.' && s[i + 1] == '.'))
    && (s == [] || s[|s| - 1] != '.')
  }

  /** `<rev1>..<rev2>`, split at the first "..". */
  function ParseCommitRange(s: string): Option<(string, string)>
  {
    if |s| < 2 then None
    else if s[0] == '.' && s[1] == '.' then Some(("", s[2..]))
    else match ParseCommitRange(s[1..])
      case Some((a, b)) => Some(([s[0]] + a, b))
      case None => None
  }

  lemma {:induction false} CommitRangeRoundTrip(from: string, to: string)
    requires IsRangeEnd(from)
    ensures ParseCommitRange(from + ".." + to) == Some((from, to))
  {
    var s := from + ".." + to;
    if from == [] {
      assert s == ".." + to;
      assert s[2..] == to;
    } else {
      assert s[0] == from[0];
      assert s[1..] == from[1..] + ".." + to;
      if |from| == 1 {
        assert s[1] == '.' && s[0] != '.';
      } else {
        assert s[1] == from[1];
        assert !(from[0] == '.' && from[1] == '.');
      }
      assert IsRangeEnd(from[1..]) by {
        forall i | 0 <= i < |from[1..]| - 1
          ensures !(from[1..][i] == '.' && from[1..][i + 1] == '.')
        {
          assert from[1..][i] == from[i + 1] && from[1..][i + 1] == from[i + 2];
        }
      }
      CommitRangeRoundTrip(from[1..], to);
      assert [from[0]] + from[1..] == from;
    }
  }

  /** `s` split at the first occurrence of `c`, which belongs to neither half. */
  function SplitAtFirst(s: string, c: char): Option<(string, string)>
  {
    if s == [] then None
    else if s[0] == c then Some(("", s[1..]))
    else match SplitAtFirst(s[1..], c)
      case Some((a, b)) => Some(([s[0]] + a, b))
      case None => None
  }

  lemma {:induction false} SplitAtFirstRoundTrip(a: string, b: string, c: char)
    requires c !in a
    ensures SplitAtFirst(a + [c] + b, c) == Some((a, b))
  {
    var s := a + [c] + b;
    if a == [] {
      assert s[1..] == b;
    } else {
      assert s[0] == a[0];
      assert s[1..] == a[1..] + [c] + b;
      SplitAtFirstRoundTrip(a[1..], b, c);
      assert [a[0]] + a[1..] == a;
    }
  }

  /** `HEAD@{<from>}..HEAD@{<to>}`: the two reflog dates of a range of HEAD positions. */
  function ParseReflogRange(s: string): Option<(string, string)>
  {
    if |s| >= 6 && s[..6] == "HEAD@{" then
      match SplitAtFirst(s[6..], '}')
      case Some((from, rest)) =>
        if |rest| >= 9 && rest[..8] == "..HEAD@{" && rest[|rest| - 1] == '}'
        then Some((from, rest[8..|rest| - 1]))
        else None
      case None => None
    else None
  }

  lemma ReflogRangeRoundTrip(from: string, to: string)
    requires '}' !in from
    ensures ParseReflogRange("HEAD@{" + from + "}..HEAD@{" + to + "}") == Some((from, to))
  {
    var s := "HEAD@{" + from + "}..HEAD@{" + to + "}";
    var rest := "..HEAD@{" + to + "}";
    assert s[..6] == "HEAD@{";
    assert s[6..] == from + ['}'] + rest;
    SplitAtFirstRoundTrip(from, rest, '}');
    assert rest[..8] == "..HEAD@{";
    assert rest[8..|rest| - 1] == to;
  }
}
