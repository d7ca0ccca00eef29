/**
 * The app-info query's project name (apps/web/src/hooks/fetch/app.tsx and
 * its copy in src/hooks/fetch/app.tsx): the last folder name of the
 * server's `path.root`, with trailing separators ignored.
 */
module AppInfo {
  import opened Wrappers
  import opened PathNames

  /**
   * The app data the server returns. `root` is `None` when `path.root` is not
   * a string; the other fields are carried as they are.
   */
  datatype AppData = AppData(root: Option<string>, fields: map<string, string>)

  datatype AppInfoWithName = AppInfoWithName(data: AppData, projectName: string)

  /**
   * `projectName`: "" unless the root is a string; otherwise the last piece of
   * the root, with trailing separators removed, split on runs of separators
   * (`|| ""` changes nothing, since the only falsy string is "").
   */
  function ProjectName(root: Option<string>): string {
    if root.None? then ""
    else
      var normalized := StripTrailingSeps(root.value);
      var parts := SplitRuns(normalized);
      parts[|parts| - 1]
  }

  /** `{ ...data, projectName }`: every field kept, the name added. */
  function WithProjectName(data: AppData): (r: AppInfoWithName)
    ensures r.data == data
    ensures r.projectName == ProjectName(data.root)
  {
    AppInfoWithName(data, ProjectName(data.root))
  }

  /**
   * The name holds no separator; it is the last folder of the root once the
   * trailing separators are gone, a suffix of it preceded by a separator
   * unless it is all of it; a missing root or one made only of separators
   * gives "".
   */
  lemma {:induction false} ProjectNameFacts(root: Option<string>)
    ensures NoSep(ProjectName(root))
    ensures root.None? ==> ProjectName(root) == ""
    ensures root.Some? && AllSep(root.value) ==> ProjectName(root) == ""
    ensures root.Some? ==>
      var t := StripTrailingSeps(root.value);
      var n := ProjectName(root);
      && |n| <= |t|
      && t == t[..|t| - |n|] + n
      && (|n| < |t| ==> IsSep(t[|t| - |n| - 1]))
      && (|t| > 0 ==> |n| > 0)
  {
    if root.Some? {
      var t := StripTrailingSeps(root.value);
      SplitRunsLast(t);
      LastSegmentFacts(t);
      StripTrailingSepsFacts(root.value);
      if AllSep(root.value) {
        AllSepStripsToEmpty(root.value);
      }
    }
  }

  lemma {:induction false} AllSepStripsToEmpty(s: string)
    requires AllSep(s)
    ensures StripTrailingSeps(s) == ""
  {
    if |s| > 0 {
      AllSepStripsToEmpty(s[..|s| - 1]);
    }
  }

  /** Trailing separators on the root do not change the name. */
  lemma {:induction false} TrailingSepsIgnored(root: string, seps: string)
    requires AllSep(seps)
    ensures ProjectName(Some(root + seps)) == ProjectName(Some(root))
  {
    var t := StripTrailingSeps(root);
    StripTrailingSepsFacts(root);
    var tail := root[|t|..];
    assert root + seps == t + (tail + seps);
    StripAppendedSeps(t, tail + seps);
    StripAppendedSeps(t, tail);
  }
}
