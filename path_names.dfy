/**
 * Path-string helpers shared by the web client's project names and labels:
 * `split(/[/\\]/)` and `split(/[/\\]+/)` (both built from the end, which is
 * the side the callers read), the last segment of a path, and the removal
 * of trailing separators (`replace(/[\\/]+$/, "")`). Both '/' and '\' count
 * as separators.
 */
module PathNames {

  predicate IsSep(c: char) {
    c == '/' || c == '\\'
  }

  predicate NoSep(s: string) {
    forall i :: 0 <= i < |s| ==> !IsSep(s[i])
  }

  predicate AllSep(s: string) {
    forall i :: 0 <= i < |s| ==> IsSep(s[i])
  }

  /** `s.split(/[/\\]/)`: the pieces between single separators; never empty. */
  function Split(s: string): (r: seq<string>)
    ensures |r| > 0
  {
    if |s| == 0 then [""]
    else
      var init := Split(s[..|s| - 1]);
      var c := s[|s| - 1];
      if IsSep(c) then init + [""]
      else init[..|init| - 1] + [init[|init| - 1] + [c]]
  }

  /** `s.split(/[/\\]+/)`: the pieces between runs of separators; never empty. */
  function SplitRuns(s: string): (r: seq<string>)
    ensures |r| > 0
  {
    if |s| == 0 then [""]
    else
      var init := SplitRuns(s[..|s| - 1]);
      var c := s[|s| - 1];
      if IsSep(c) then
        (if |s| >= 2 && IsSep(s[|s| - 2]) then init else init + [""])
      else init[..|init| - 1] + [init[|init| - 1] + [c]]
  }

  /** The length of the longest separator-free suffix. */
  function TailLength(s: string): (n: nat)
    ensures n <= |s|
  {
    if |s| == 0 || IsSep(s[|s| - 1]) then 0 else TailLength(s[..|s| - 1]) + 1
  }

  /** The text after the last separator (all of `s` when it has none). */
  function LastSegment(s: string): string {
    s[|s| - TailLength(s)..]
  }

  /**
   * The last segment is characterised by three facts: it is a suffix, it
   * holds no separator, and it is preceded by a separator unless it is the
   * whole string.
   */
  lemma {:induction false} LastSegmentFacts(s: string)
    ensures var seg := LastSegment(s);
      && s == s[..|s| - |seg|] + seg
      && NoSep(seg)
      && (|seg| < |s| ==> IsSep(s[|s| - |seg| - 1]))
  {
    if |s| > 0 && !IsSep(s[|s| - 1]) {
      var init := s[..|s| - 1];
      LastSegmentFacts(init);
      assert LastSegment(s) == LastSegment(init) + [s[|s| - 1]];
    }
  }

  /** Conversely, any suffix with those three properties is the last segment. */
  lemma {:induction false} LastSegmentIs(s: string, n: nat)
    requires n <= |s| && NoSep(s[|s| - n..]) && (n < |s| ==> IsSep(s[|s| - n - 1]))
    ensures LastSegment(s) == s[|s| - n..]
  {
    TailLengthIs(s, n);
  }

  lemma {:induction false} TailLengthIs(s: string, n: nat)
    requires n <= |s| && NoSep(s[|s| - n..]) && (n < |s| ==> IsSep(s[|s| - n - 1]))
    ensures TailLength(s) == n
  {
    if n > 0 {
      var init := s[..|s| - 1];
      assert init[|init| - (n - 1)..] == s[|s| - n..|s| - 1];
      assert s[|s| - 1] == s[|s| - n..][n - 1];
      TailLengthIs(init, n - 1);
    }
  }

  /** The last piece of `split(/[/\\]/)` is the last segment. */
  lemma {:induction false} SplitLast(s: string)
    ensures Split(s)[|Split(s)| - 1] == LastSegment(s)
  {
    if |s| > 0 {
      SplitLast(s[..|s| - 1]);
    }
  }

  /** The last piece of `split(/[/\\]+/)` is the last segment too: runs of separators do not change it. */
  lemma {:induction false} SplitRunsLast(s: string)
    ensures SplitRuns(s)[|SplitRuns(s)| - 1] == LastSegment(s)
  {
    if |s| > 0 {
      var init := s[..|s| - 1];
      SplitRunsLast(init);
      if IsSep(s[|s| - 1]) && |s| >= 2 && IsSep(s[|s| - 2]) {
        assert TailLength(init) == 0;
      }
    }
  }

  /** No piece of `split(/[/\\]/)` holds a separator. */
  lemma {:induction false} SplitPiecesNoSep(s: string)
    ensures forall k :: 0 <= k < |Split(s)| ==> NoSep(Split(s)[k])
  {
    if |s| > 0 {
      SplitPiecesNoSep(s[..|s| - 1]);
    }
  }

  /** The length of the trailing run of separators. */
  function TrailingSeps(s: string): (n: nat)
    ensures n <= |s|
  {
    if |s| == 0 || !IsSep(s[|s| - 1]) then 0 else TrailingSeps(s[..|s| - 1]) + 1
  }

  /** `s.replace(/[\\/]+$/, "")`: `s` without its trailing separators. */
  function StripTrailingSeps(s: string): string {
    s[..|s| - TrailingSeps(s)]
  }

  /** Only separators are removed, and the result does not end with one. */
  lemma {:induction false} StripTrailingSepsFacts(s: string)
    ensures var t := StripTrailingSeps(s);
      && s == t + s[|t|..]
      && AllSep(s[|t|..])
      && (|t| > 0 ==> !IsSep(t[|t| - 1]))
  {
    if |s| > 0 && IsSep(s[|s| - 1]) {
      var init := s[..|s| - 1];
      StripTrailingSepsFacts(init);
      assert StripTrailingSeps(s) == StripTrailingSeps(init);
      assert s[|StripTrailingSeps(s)|..] == init[|StripTrailingSeps(init)|..] + [s[|s| - 1]];
    }
  }

  /** Appending separators to a string does not change what stripping leaves. */
  lemma {:induction false} StripAppendedSeps(t: string, seps: string)
    requires AllSep(seps) && (|t| > 0 ==> !IsSep(t[|t| - 1]))
    ensures StripTrailingSeps(t + seps) == t
    decreases |seps|
  {
    if |seps| == 0 {
      assert t + seps == t;
    } else {
      var s := t + seps;
      assert s[..|s| - 1] == t + seps[..|seps| - 1];
      StripAppendedSeps(t, seps[..|seps| - 1]);
    }
  }
}
