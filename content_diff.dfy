/**
 * The side-by-side diff view: the rows built from the hunk lines of a
 * parsed unified diff (a run of removals is paired with the additions that
 * follow it), and the grouping of those rows into blocks for the narrow
 * (mobile) layout.
 *
 * Parsing the diff text is done by a library (`parsePatch`); its result is
 * an input here, with None standing for a parse that threw.
 */
module ContentDiff {
  import opened Wrappers
  import opened Seqs

  datatype RowKind = Added | Removed | Unchanged | Modified

  datatype DiffRow = DiffRow(left: string, right: string, kind: RowKind)

  datatype Hunk = Hunk(lines: seq<string>)

  datatype Patch = Patch(hunks: seq<Hunk>)

  // ---------------------------------------------------------------------
  // Line prefixes
  // ---------------------------------------------------------------------

  /** `line[0] === c`; an empty line has no first character. */
  predicate StartsWith(line: string, c: char) {
    |line| > 0 && line[0] == c
  }

  predicate IsRemoval(line: string) {
    StartsWith(line, '-')
  }

  predicate IsAddition(line: string) {
    StartsWith(line, '+')
  }

  predicate IsContext(line: string) {
    StartsWith(line, ' ')
  }

  /** A line that produces a row: a removal, an addition or context. */
  predicate IsDiffLine(line: string) {
    IsRemoval(line) || IsAddition(line) || IsContext(line)
  }

  /** `line.slice(1)`. */
  function Content(line: string): string {
    if |line| == 0 then "" else line[1..]
  }

  /** What a context line shows on both sides: its content, or a single space when that is empty. */
  function ContextText(line: string): (r: string)
    ensures r != ""
    ensures Content(line) != "" ==> r == Content(line)
  {
    if Content(line) == "" then " " else Content(line)
  }

  /** The length of the run of lines starting with `c` at the front of `lines`. */
  function RunLength(lines: seq<string>, c: char): (n: nat)
    ensures n <= |lines|
  {
    if |lines| > 0 && StartsWith(lines[0], c) then 1 + RunLength(lines[1..], c) else 0
  }

  /** Every line starts with `c`. */
  predicate AllStart(lines: seq<string>, c: char) {
    forall t :: 0 <= t < |lines| ==> StartsWith(lines[t], c)
  }

  /** The run is maximal: every line in it starts with `c`, and the line after it does not. */
  lemma {:induction false} RunLengthFacts(lines: seq<string>, c: char)
    ensures AllStart(lines[..RunLength(lines, c)], c)
    ensures RunLength(lines, c) < |lines| ==> !StartsWith(lines[RunLength(lines, c)], c)
  {
    if |lines| > 0 && StartsWith(lines[0], c) {
      RunLengthFacts(lines[1..], c);
      var n := RunLength(lines, c);
      assert lines[..n] == [lines[0]] + lines[1..][..n - 1];
    }
  }

  /** A run is determined by where it stops. */
  lemma {:induction false} RunLengthIs(lines: seq<string>, c: char, n: nat)
    requires n <= |lines|
    requires AllStart(lines[..n], c)
    requires n < |lines| ==> !StartsWith(lines[n], c)
    ensures RunLength(lines, c) == n
  {
    assert lines == lines[..n] + lines[n..];
    RunLengthOfConcat(lines[..n], lines[n..], c);
  }

  /** The run at the front of `a + b` is `a`, when `a` is all `c` and `b` does not start with `c`. */
  lemma {:induction false} RunLengthOfConcat(a: seq<string>, b: seq<string>, c: char)
    requires AllStart(a, c)
    requires |b| > 0 ==> !StartsWith(b[0], c)
    ensures RunLength(a + b, c) == |a|
  {
    if |a| == 0 {
      assert a + b == b;
    } else {
      assert (a + b)[0] == a[0];
      assert (a + b)[1..] == a[1..] + b;
      RunLengthOfConcat(a[1..], b, c);
    }
  }

  // ---------------------------------------------------------------------
  // Rows of one hunk
  // ---------------------------------------------------------------------

  function Max(a: int, b: int): int {
    if a < b then b else a
  }

  function Min(a: int, b: int): int {
    if a < b then a else b
  }

  /** The rows for a run of removals `rem` and the additions `add` after it, paired position by position. */
  function PairRows(rem: seq<string>, add: seq<string>): seq<DiffRow>
    decreases |rem| + |add|
  {
    if |rem| == 0 && |add| == 0 then []
    else if |rem| > 0 && |add| > 0 then [DiffRow(rem[0], add[0], Modified)] + PairRows(rem[1..], add[1..])
    else if |rem| > 0 then [DiffRow(rem[0], "", Removed)] + PairRows(rem[1..], add)
    else [DiffRow("", add[0], Added)] + PairRows(rem, add[1..])
  }

  /**
   * k removals and m additions give max(k, m) rows: the first min(k, m)
   * are modified pairs, the rest pure removals (when k > m) or pure
   * additions (when m > k).
   */
  lemma {:induction false} PairRowsShape(rem: seq<string>, add: seq<string>)
    ensures |PairRows(rem, add)| == Max(|rem|, |add|)
    ensures forall k :: 0 <= k < Min(|rem|, |add|) ==> PairRows(rem, add)[k] == DiffRow(rem[k], add[k], Modified)
    ensures forall k :: |add| <= k < |rem| ==> PairRows(rem, add)[k] == DiffRow(rem[k], "", Removed)
    ensures forall k :: |rem| <= k < |add| ==> PairRows(rem, add)[k] == DiffRow("", add[k], Added)
    decreases |rem| + |add|
  {
    if |rem| > 0 && |add| > 0 {
      PairRowsShape(rem[1..], add[1..]);
    } else if |rem| > 0 {
      PairRowsShape(rem[1..], add);
    } else if |add| > 0 {
      PairRowsShape(rem, add[1..]);
    }
  }

  /**
   * The rows of one hunk: a removal run is paired with the addition run
   * right after it; a lone addition, a context line each give one row;
   * a line with any other first character gives none.
   */
  function HunkRows(lines: seq<string>): seq<DiffRow>
    decreases |lines|
  {
    if |lines| == 0 then []
    else if IsRemoval(lines[0]) then
      var k := RunLength(lines, '-');
      var m := RunLength(lines[k..], '+');
      PairRows(Map(lines[..k], Content), Map(lines[k..k + m], Content)) + HunkRows(lines[k + m..])
    else
      LineRows(lines[0]) + HunkRows(lines[1..])
  }

  /** The row of a line outside a removal run: a lone addition, a context line, or nothing. */
  function LineRows(line: string): seq<DiffRow> {
    if IsAddition(line) then [DiffRow("", Content(line), Added)]
    else if IsContext(line) then [DiffRow(ContextText(line), ContextText(line), Unchanged)]
    else []
  }

  /**
   * A removal run followed by its addition run (either ended by the end of
   * the hunk or by a line that continues neither) contributes exactly the
   * paired rows, and the rest of the hunk is read afresh.
   */
  lemma {:induction false} RemovalRunYieldsPairs(minus: seq<string>, plus: seq<string>, rest: seq<string>)
    requires |minus| > 0 && AllRemovals(minus) && AllAdditions(plus)
    requires |rest| > 0 ==> !IsAddition(rest[0]) && (|plus| == 0 ==> !IsRemoval(rest[0]))
    ensures HunkRows(minus + plus + rest) == PairRows(Map(minus, Content), Map(plus, Content)) + HunkRows(rest)
  {
    var lines := minus + plus + rest;
    ThreeParts(minus, plus, rest);
    assert |plus + rest| > 0 ==> !IsRemoval((plus + rest)[0]) by {
      if |plus| > 0 { assert (plus + rest)[0] == plus[0]; }
      else { assert plus + rest == rest; }
    }
    RunLengthOfConcat(minus, plus + rest, '-');
    RunLengthOfConcat(plus, rest, '+');
    HunkRowsAtRun(lines);
  }

  /** How `a + b + c` splits back into its parts. */
  lemma {:induction false} ThreeParts<T>(a: seq<T>, b: seq<T>, c: seq<T>)
    ensures a + b + c == a + (b + c)
    ensures |a| > 0 ==> (a + b + c)[0] == a[0]
    ensures (a + b + c)[..|a|] == a && (a + b + c)[|a|..] == b + c
    ensures (a + b + c)[|a|..|a| + |b|] == b && (a + b + c)[|a| + |b|..] == c
  {
  }

  /** One unfolding of `HunkRows` at a removal run. */
  lemma {:induction false} HunkRowsAtRun(lines: seq<string>)
    requires |lines| > 0 && IsRemoval(lines[0])
    ensures
      var k := RunLength(lines, '-');
      var m := RunLength(lines[k..], '+');
      HunkRows(lines) == PairRows(Map(lines[..k], Content), Map(lines[k..k + m], Content)) + HunkRows(lines[k + m..])
  {
  }

  /** The shape of a row the view relies on: unchanged rows show the same non-empty text on both sides, added rows nothing on the left, removed rows nothing on the right. */
  predicate WellShaped(r: DiffRow) {
    && (r.kind == Unchanged ==> r.left == r.right && r.left != "")
    && (r.kind == Added ==> r.left == "")
    && (r.kind == Removed ==> r.right == "")
  }

  predicate AllWellShaped(rows: seq<DiffRow>) {
    forall t :: 0 <= t < |rows| ==> WellShaped(rows[t])
  }

  lemma {:induction false} AllWellShapedAppend(a: seq<DiffRow>, b: seq<DiffRow>)
    requires AllWellShaped(a) && AllWellShaped(b)
    ensures AllWellShaped(a + b)
  {
  }

  lemma {:induction false} PairRowsWellShaped(rem: seq<string>, add: seq<string>)
    ensures AllWellShaped(PairRows(rem, add))
  {
    PairRowsShape(rem, add);
  }

  /** Every row of a hunk is well shaped. */
  lemma {:induction false} HunkRowsShape(lines: seq<string>)
    ensures AllWellShaped(HunkRows(lines))
    decreases |lines|, 1
  {
    if |lines| > 0 {
      if IsRemoval(lines[0]) {
        ShapeRemovalCase(lines);
      } else {
        HunkRowsShape(lines[1..]);
        HunkRowsAtLine(lines);
        AllWellShapedAppend(LineRows(lines[0]), HunkRows(lines[1..]));
      }
    }
  }

  lemma {:induction false} ShapeRemovalCase(lines: seq<string>)
    requires |lines| > 0 && IsRemoval(lines[0])
    ensures AllWellShaped(HunkRows(lines))
    decreases |lines|, 0
  {
    var k := RunLength(lines, '-');
    var m := RunLength(lines[k..], '+');
    var rem, add, rest := Map(lines[..k], Content), Map(lines[k..k + m], Content), lines[k + m..];
    HunkRowsAtRun(lines);
    PairRowsWellShaped(rem, add);
    HunkRowsShape(rest);
    AllWellShapedAppend(PairRows(rem, add), HunkRows(rest));
  }

  /** One unfolding of `HunkRows` at a line outside a removal run. */
  lemma {:induction false} HunkRowsAtLine(lines: seq<string>)
    requires |lines| > 0 && !IsRemoval(lines[0])
    ensures HunkRows(lines) == LineRows(lines[0]) + HunkRows(lines[1..])
  {
  }

  predicate HasLeftChange(r: DiffRow) {
    r.kind == Removed || r.kind == Modified
  }

  predicate HasRightChange(r: DiffRow) {
    r.kind == Added || r.kind == Modified
  }

  predicate IsUnchangedRow(r: DiffRow) {
    r.kind == Unchanged
  }

  function LeftOf(r: DiffRow): string {
    r.left
  }

  function RightOf(r: DiffRow): string {
    r.right
  }

  /** The left texts of the removed and modified rows, in order. */
  function RemovedSide(rows: seq<DiffRow>): seq<string> {
    Map(Filter(rows, HasLeftChange), LeftOf)
  }

  /** The right texts of the added and modified rows, in order. */
  function AddedSide(rows: seq<DiffRow>): seq<string> {
    Map(Filter(rows, HasRightChange), RightOf)
  }

  /** The texts of the unchanged rows, in order. */
  function UnchangedSide(rows: seq<DiffRow>): seq<string> {
    Map(Filter(rows, IsUnchangedRow), LeftOf)
  }

  /** The contents of the '-' lines, in order. */
  function MinusLines(lines: seq<string>): seq<string> {
    Map(Filter(lines, IsRemoval), Content)
  }

  /** The contents of the '+' lines, in order. */
  function PlusLines(lines: seq<string>): seq<string> {
    Map(Filter(lines, IsAddition), Content)
  }

  /** The displayed texts of the ' ' lines, in order. */
  function ContextLines(lines: seq<string>): seq<string> {
    Map(Filter(lines, IsContext), ContextText)
  }

  lemma {:induction false} SidesAppend(a: seq<DiffRow>, b: seq<DiffRow>)
    ensures RemovedSide(a + b) == RemovedSide(a) + RemovedSide(b)
    ensures AddedSide(a + b) == AddedSide(a) + AddedSide(b)
    ensures UnchangedSide(a + b) == UnchangedSide(a) + UnchangedSide(b)
  {
    FilterAppend(a, b, HasLeftChange);
    FilterAppend(a, b, HasRightChange);
    FilterAppend(a, b, IsUnchangedRow);
    MapAppend(Filter(a, HasLeftChange), Filter(b, HasLeftChange), LeftOf);
    MapAppend(Filter(a, HasRightChange), Filter(b, HasRightChange), RightOf);
    MapAppend(Filter(a, IsUnchangedRow), Filter(b, IsUnchangedRow), LeftOf);
  }

  lemma {:induction false} LinesAppend(a: seq<string>, b: seq<string>)
    ensures MinusLines(a + b) == MinusLines(a) + MinusLines(b)
    ensures PlusLines(a + b) == PlusLines(a) + PlusLines(b)
    ensures ContextLines(a + b) == ContextLines(a) + ContextLines(b)
  {
    FilterAppend(a, b, IsRemoval);
    FilterAppend(a, b, IsAddition);
    FilterAppend(a, b, IsContext);
    MapAppend(Filter(a, IsRemoval), Filter(b, IsRemoval), Content);
    MapAppend(Filter(a, IsAddition), Filter(b, IsAddition), Content);
    MapAppend(Filter(a, IsContext), Filter(b, IsContext), ContextText);
  }

  /** The removed side of a pairing is the removals and its added side the additions. */
  lemma {:induction false} PairRowsSides(rem: seq<string>, add: seq<string>)
    ensures RemovedSide(PairRows(rem, add)) == rem
    ensures AddedSide(PairRows(rem, add)) == add
    ensures UnchangedSide(PairRows(rem, add)) == []
    decreases |rem| + |add|
  {
    if |rem| == 0 && |add| == 0 {
      return;
    }
    var rem', add' := Rest(rem), Rest(add);
    var head := PairRows(rem, add)[0];
    PairRowsCons(rem, add);
    PairRowsSides(rem', add');
    SidesAppend([head], PairRows(rem', add'));
    SidesOfOne(head);
    FirstAndRest(rem);
    FirstAndRest(add);
  }

  /** `s` without its first element, if it has one. */
  function Rest<T>(s: seq<T>): seq<T> {
    if |s| > 0 then s[1..] else s
  }

  /** `s`'s first element as a sequence of at most one element. */
  function First<T>(s: seq<T>): seq<T> {
    if |s| > 0 then [s[0]] else []
  }

  lemma {:induction false} FirstAndRest<T>(s: seq<T>)
    ensures s == First(s) + Rest(s)
  {
  }

  /** The first row of a pairing, and the pairing of what is left. */
  lemma {:induction false} PairRowsCons(rem: seq<string>, add: seq<string>)
    requires |rem| > 0 || |add| > 0
    ensures PairRows(rem, add) == [PairRows(rem, add)[0]] + PairRows(Rest(rem), Rest(add))
    ensures RemovedSide([PairRows(rem, add)[0]]) == First(rem)
    ensures AddedSide([PairRows(rem, add)[0]]) == First(add)
    ensures UnchangedSide([PairRows(rem, add)[0]]) == []
  {
    SidesOfOne(PairRows(rem, add)[0]);
  }

  /** The sides of a single row. */
  lemma {:induction false} SidesOfOne(r: DiffRow)
    ensures RemovedSide([r]) == (if HasLeftChange(r) then [r.left] else [])
    ensures AddedSide([r]) == (if HasRightChange(r) then [r.right] else [])
    ensures UnchangedSide([r]) == (if IsUnchangedRow(r) then [r.left] else [])
  {
    assert [r][1..] == [];
  }

  /** The removal run at the front of a hunk and the addition run after it. */
  lemma {:induction false} RunParts(lines: seq<string>, k: nat, m: nat)
    requires k + m <= |lines|
    requires RunLength(lines, '-') == k && RunLength(lines[k..], '+') == m
    ensures AllRemovals(lines[..k])
    ensures AllAdditions(lines[k..k + m])
  {
    RunLengthFacts(lines, '-');
    RunLengthFacts(lines[k..], '+');
    assert lines[k..][..m] == lines[k..k + m];
  }

  predicate AllRemovals(lines: seq<string>) {
    AllStart(lines, '-')
  }

  predicate AllAdditions(lines: seq<string>) {
    AllStart(lines, '+')
  }

  /** A run of '-' lines followed by a run of '+' lines, seen from the line side. */
  lemma {:induction false} RunLines(minus: seq<string>, plus: seq<string>)
    requires AllRemovals(minus) && AllAdditions(plus)
    ensures MinusLines(minus + plus) == Map(minus, Content)
    ensures PlusLines(minus + plus) == Map(plus, Content)
    ensures ContextLines(minus + plus) == []
  {
    LinesAppend(minus, plus);
    FilterAll(minus, IsRemoval);
    FilterNone(minus, IsAddition);
    FilterNone(minus, IsContext);
    FilterNone(plus, IsRemoval);
    FilterAll(plus, IsAddition);
    FilterNone(plus, IsContext);
  }

  /**
   * Every '-' line appears as the left side of exactly one removed or
   * modified row and every '+' line as the right side of exactly one added
   * or modified row, in hunk order; the unchanged rows are the context
   * lines, in order.
   */
  lemma {:induction false} HunkRowsKeepLines(lines: seq<string>)
    ensures RemovedSide(HunkRows(lines)) == MinusLines(lines)
    ensures AddedSide(HunkRows(lines)) == PlusLines(lines)
    ensures UnchangedSide(HunkRows(lines)) == ContextLines(lines)
    decreases |lines|, 1
  {
    if |lines| == 0 {
    } else if IsRemoval(lines[0]) {
      KeepLinesRemovalCase(lines);
    } else {
      KeepLinesLineCase(lines);
    }
  }

  lemma {:induction false} KeepLinesRemovalCase(lines: seq<string>)
    requires |lines| > 0 && IsRemoval(lines[0])
    ensures RemovedSide(HunkRows(lines)) == MinusLines(lines)
    ensures AddedSide(HunkRows(lines)) == PlusLines(lines)
    ensures UnchangedSide(HunkRows(lines)) == ContextLines(lines)
    decreases |lines|, 0
  {
    var k := RunLength(lines, '-');
    var m := RunLength(lines[k..], '+');
    var minus, plus, rest := lines[..k], lines[k..k + m], lines[k + m..];
    HunkRowsKeepLines(rest);
    HunkRowsAtRun(lines);
    RunParts(lines, k, m);
    SplitAt(lines, k, m);
    KeepLinesAtRun(minus, plus, rest, HunkRows(rest));
  }

  lemma {:induction false} SplitAt<T>(s: seq<T>, k: nat, m: nat)
    requires k + m <= |s|
    ensures s == (s[..k] + s[k..k + m]) + s[k + m..]
  {
  }

  lemma {:induction false} KeepLinesLineCase(lines: seq<string>)
    requires |lines| > 0 && !IsRemoval(lines[0])
    ensures RemovedSide(HunkRows(lines)) == MinusLines(lines)
    ensures AddedSide(HunkRows(lines)) == PlusLines(lines)
    ensures UnchangedSide(HunkRows(lines)) == ContextLines(lines)
    decreases |lines|, 0
  {
    var head, rest := lines[0], lines[1..];
    HunkRowsKeepLines(rest);
    assert HunkRows(lines) == LineRows(head) + HunkRows(rest);
    KeepLinesAtLine(head, rest, HunkRows(rest));
    assert lines == [head] + rest;
  }

  /** The step of `HunkRowsKeepLines` at a removal run `minus`, its additions `plus`, and the rows `tail` of the rest. */
  lemma {:induction false} KeepLinesAtRun(minus: seq<string>, plus: seq<string>, rest: seq<string>, tail: seq<DiffRow>)
    requires AllRemovals(minus) && AllAdditions(plus)
    requires RemovedSide(tail) == MinusLines(rest)
    requires AddedSide(tail) == PlusLines(rest)
    requires UnchangedSide(tail) == ContextLines(rest)
    ensures var rows := PairRows(Map(minus, Content), Map(plus, Content)) + tail;
      && RemovedSide(rows) == MinusLines((minus + plus) + rest)
      && AddedSide(rows) == PlusLines((minus + plus) + rest)
      && UnchangedSide(rows) == ContextLines((minus + plus) + rest)
  {
    var pairs := PairRows(Map(minus, Content), Map(plus, Content));
    PairRowsSides(Map(minus, Content), Map(plus, Content));
    SidesAppend(pairs, tail);
    LinesAppend(minus + plus, rest);
    RunLines(minus, plus);
  }

  /** The step of `HunkRowsKeepLines` at a line outside a removal run, with the rows `tail` of the rest. */
  lemma {:induction false} KeepLinesAtLine(head: string, rest: seq<string>, tail: seq<DiffRow>)
    requires !IsRemoval(head)
    requires RemovedSide(tail) == MinusLines(rest)
    requires AddedSide(tail) == PlusLines(rest)
    requires UnchangedSide(tail) == ContextLines(rest)
    ensures RemovedSide(LineRows(head) + tail) == MinusLines([head] + rest)
    ensures AddedSide(LineRows(head) + tail) == PlusLines([head] + rest)
    ensures UnchangedSide(LineRows(head) + tail) == ContextLines([head] + rest)
  {
    LinesAppend([head], rest);
    SidesAppend(LineRows(head), tail);
    LineRowsSides(head);
  }

  /** A line outside a removal run shows up on the side its prefix says, and nowhere else. */
  lemma {:induction false} LineRowsSides(head: string)
    requires !IsRemoval(head)
    ensures RemovedSide(LineRows(head)) == MinusLines([head])
    ensures AddedSide(LineRows(head)) == PlusLines([head])
    ensures UnchangedSide(LineRows(head)) == ContextLines([head])
  {
    assert [head][1..] == [];
    if IsAddition(head) {
      assert LineRows(head)[1..] == [];
    } else if IsContext(head) {
      assert LineRows(head)[1..] == [];
    }
  }

  /** Every row comes from a '-', '+' or ' ' line: there are never more rows than such lines. */
  lemma {:induction false} HunkRowsCount(lines: seq<string>)
    ensures |HunkRows(lines)| <= |Filter(lines, IsDiffLine)|
    decreases |lines|
  {
    if |lines| == 0 {
      return;
    }
    if IsRemoval(lines[0]) {
      var k := RunLength(lines, '-');
      var m := RunLength(lines[k..], '+');
      HunkRowsCount(lines[k + m..]);
      CountAtRun(lines, k, m);
      HunkRowsAtRun(lines);
    } else {
      var head := lines[0];
      assert HunkRows(lines) == LineRows(head) + HunkRows(lines[1..]);
      HunkRowsCount(lines[1..]);
      assert lines == [head] + lines[1..];
      FilterAppend([head], lines[1..], IsDiffLine);
      assert [head][1..] == [];
    }
  }

  /** The step of `HunkRowsCount` at a removal run: max(k, m) rows for k + m lines. */
  lemma {:induction false} CountAtRun(lines: seq<string>, k: nat, m: nat)
    requires k + m <= |lines|
    requires RunLength(lines, '-') == k && RunLength(lines[k..], '+') == m
    ensures |PairRows(Map(lines[..k], Content), Map(lines[k..k + m], Content))| + |Filter(lines[k + m..], IsDiffLine)|
            <= |Filter(lines, IsDiffLine)|
  {
    var minus, plus, rest := lines[..k], lines[k..k + m], lines[k + m..];
    PairRowsShape(Map(minus, Content), Map(plus, Content));
    RunParts(lines, k, m);
    assert lines == (minus + plus) + rest;
    FilterAppend(minus + plus, rest, IsDiffLine);
    FilterAppend(minus, plus, IsDiffLine);
    FilterAll(minus, IsDiffLine);
    FilterAll(plus, IsDiffLine);
  }

  /** The hunk loop: one pass over the lines, pairing each removal run with the additions after it. */
  method BuildHunkRows(lines: seq<string>) returns (rows: seq<DiffRow>)
    ensures rows == HunkRows(lines)
  {
    rows := [];
    var i := 0;
    while i < |lines|
      invariant 0 <= i <= |lines|
      invariant rows + HunkRows(lines[i..]) == HunkRows(lines)
    {
      var line := lines[i];
      var content := Content(line);
      if IsRemoval(line) {
        var removals, additions, afterRemovals, j := CollectRun(lines, i);
        var paired := PairAll(removals, additions);
        RunRowsAt(lines, i, afterRemovals, j);
        Advance(rows, paired, HunkRows(lines[i..]), HunkRows(lines[j..]), HunkRows(lines));
        rows := rows + paired;
        i := j;
      } else {
        var row := [];
        if IsAddition(line) {
          row := [DiffRow("", content, Added)];
        } else if IsContext(line) {
          var text := if content == "" then " " else content;
          row := [DiffRow(text, text, Unchanged)];
        }
        assert row == LineRows(line);
        LineRowsAt(lines, i);
        Advance(rows, row, HunkRows(lines[i..]), HunkRows(lines[i + 1..]), HunkRows(lines));
        rows := rows + row;
        i := i + 1;
      }
    }
  }

  /** Book-keeping of the hunk loop: appending the rows of a step keeps `done + todo == all`. */
  lemma {:induction false} Advance(done: seq<DiffRow>, step: seq<DiffRow>, todo: seq<DiffRow>, todo': seq<DiffRow>, all: seq<DiffRow>)
    requires done + todo == all && todo == step + todo'
    ensures (done + step) + todo' == all
  {
  }

  /**
   * The look-ahead at a '-' line i: the contents of the removal run
   * `lines[i..r]` and of the addition run `lines[r..j]` right after it.
   */
  method CollectRun(lines: seq<string>, i: nat)
    returns (removals: seq<string>, additions: seq<string>, r: nat, j: nat)
    requires i < |lines| && IsRemoval(lines[i])
    ensures i < r <= j <= |lines|
    ensures AllRemovals(lines[i..r]) && (r < |lines| ==> !IsRemoval(lines[r]))
    ensures AllAdditions(lines[r..j]) && (j < |lines| ==> !IsAddition(lines[j]))
    ensures removals == Map(lines[i..r], Content) && additions == Map(lines[r..j], Content)
  {
    GrowRun(lines, i, i, [], '-');
    removals := [Content(lines[i])];
    j := i + 1;
    while j < |lines| && IsRemoval(lines[j])
      invariant i < j <= |lines|
      invariant AllRemovals(lines[i..j])
      invariant removals == Map(lines[i..j], Content)
    {
      GrowRun(lines, i, j, removals, '-');
      removals := removals + [Content(lines[j])];
      j := j + 1;
    }
    r := j;
    additions := [];
    while j < |lines| && IsAddition(lines[j])
      invariant r <= j <= |lines|
      invariant AllAdditions(lines[r..j])
      invariant additions == Map(lines[r..j], Content)
    {
      GrowRun(lines, r, j, additions, '+');
      additions := additions + [Content(lines[j])];
      j := j + 1;
    }
  }

  /** One more line of a run: the run still starts with `c` throughout, and its contents grow by that line's. */
  lemma {:induction false} GrowRun(lines: seq<string>, lo: nat, j: nat, done: seq<string>, c: char)
    requires lo <= j < |lines| && StartsWith(lines[j], c)
    requires AllStart(lines[lo..j], c) && done == Map(lines[lo..j], Content)
    ensures AllStart(lines[lo..j + 1], c)
    ensures done + [Content(lines[j])] == Map(lines[lo..j + 1], Content)
  {
    assert lines[lo..j + 1] == lines[lo..j] + [lines[j]];
    AppendContent(lines[lo..j], lines[j]);
  }

  lemma {:induction false} AppendContent(done: seq<string>, line: string)
    ensures Map(done + [line], Content) == Map(done, Content) + [Content(line)]
  {
    MapAppend(done, [line], Content);
    assert [line][1..] == [];
  }

  /** The rows of the hunk from a removal run at i: the pairing, then the rows from j on. */
  lemma {:induction false} RunRowsAt(lines: seq<string>, i: nat, r: nat, j: nat)
    requires i < r <= j <= |lines|
    requires AllRemovals(lines[i..r]) && (r < |lines| ==> !IsRemoval(lines[r]))
    requires AllAdditions(lines[r..j]) && (j < |lines| ==> !IsAddition(lines[j]))
    ensures HunkRows(lines[i..]) == PairRows(Map(lines[i..r], Content), Map(lines[r..j], Content)) + HunkRows(lines[j..])
  {
    var minus, plus, rest := lines[i..r], lines[r..j], lines[j..];
    assert lines[i..] == minus + plus + rest;
    assert |rest| > 0 ==> rest[0] == lines[j];
    assert |plus| == 0 && |rest| > 0 ==> rest[0] == lines[r];
    RemovalRunYieldsPairs(minus, plus, rest);
  }

  /** The rows of the hunk from a line i outside a removal run: its own row, then the rows from i + 1 on. */
  lemma {:induction false} LineRowsAt(lines: seq<string>, i: nat)
    requires i < |lines| && !IsRemoval(lines[i])
    ensures HunkRows(lines[i..]) == LineRows(lines[i]) + HunkRows(lines[i + 1..])
  {
    assert lines[i..][0] == lines[i];
    assert lines[i..][1..] == lines[i + 1..];
  }

  /** The pairing loop of a removal run: position k pairs `removals[k]` with `additions[k]` while both exist. */
  method PairAll(removals: seq<string>, additions: seq<string>) returns (rows: seq<DiffRow>)
    ensures rows == PairRows(removals, additions)
  {
    var maxLength := Max(|removals|, |additions|);
    PairRowsShape(removals, additions);
    rows := [];
    var k := 0;
    while k < maxLength
      invariant 0 <= k <= maxLength
      invariant rows == PairRows(removals, additions)[..k]
    {
      var hasLeft := k < |removals|;
      var hasRight := k < |additions|;
      if hasLeft && hasRight {
        rows := rows + [DiffRow(removals[k], additions[k], Modified)];
      } else if hasLeft {
        rows := rows + [DiffRow(removals[k], "", Removed)];
      } else if hasRight {
        rows := rows + [DiffRow("", additions[k], Added)];
      }
      assert PairRows(removals, additions)[..k + 1] == PairRows(removals, additions)[..k] + [PairRows(removals, additions)[k]];
      k := k + 1;
    }
    assert PairRows(removals, additions)[..k] == PairRows(removals, additions);
  }

  // ---------------------------------------------------------------------
  // Rows of the whole diff
  // ---------------------------------------------------------------------

  function HunksRows(hunks: seq<Hunk>): seq<DiffRow> {
    if |hunks| == 0 then [] else HunksRows(hunks[..|hunks| - 1]) + HunkRows(hunks[|hunks| - 1].lines)
  }

  function PatchesRows(patches: seq<Patch>): seq<DiffRow> {
    if |patches| == 0 then [] else PatchesRows(patches[..|patches| - 1]) + HunksRows(patches[|patches| - 1].hunks)
  }

  /** The rows of the view: those of every hunk of every patch in order, or none when parsing threw. */
  function Rows(parsed: Option<seq<Patch>>): seq<DiffRow> {
    match parsed
    case None => []
    case Some(patches) => PatchesRows(patches)
  }

  /** All the lines of all the hunks, in order. */
  function HunksLines(hunks: seq<Hunk>): seq<string> {
    if |hunks| == 0 then [] else HunksLines(hunks[..|hunks| - 1]) + hunks[|hunks| - 1].lines
  }

  /** Over several hunks too, the removed, added and unchanged sides are exactly the '-', '+' and ' ' lines, in order. */
  lemma {:induction false} HunksRowsKeepLines(hunks: seq<Hunk>)
    ensures RemovedSide(HunksRows(hunks)) == MinusLines(HunksLines(hunks))
    ensures AddedSide(HunksRows(hunks)) == PlusLines(HunksLines(hunks))
    ensures UnchangedSide(HunksRows(hunks)) == ContextLines(HunksLines(hunks))
  {
    if |hunks| > 0 {
      var init, last := hunks[..|hunks| - 1], hunks[|hunks| - 1].lines;
      HunksRowsKeepLines(init);
      HunkRowsKeepLines(last);
      SidesAppend(HunksRows(init), HunkRows(last));
      LinesAppend(HunksLines(init), last);
    }
  }

  /** The `rows` memo: every hunk of every patch in turn, and no rows at all when parsing threw. */
  method BuildRows(parsed: Option<seq<Patch>>) returns (rows: seq<DiffRow>)
    ensures parsed.None? ==> rows == []
    ensures rows == Rows(parsed)
  {
    if parsed.None? {
      return [];
    }
    var patches := parsed.value;
    rows := [];
    for p := 0 to |patches|
      invariant rows == PatchesRows(patches[..p])
    {
      var patchRows := BuildHunksRows(patches[p].hunks);
      PatchesRowsSnoc(patches, p);
      rows := rows + patchRows;
    }
    assert patches[..|patches|] == patches;
  }

  /** The inner loop of the memo: the rows of each hunk of one patch, in turn. */
  method BuildHunksRows(hunks: seq<Hunk>) returns (rows: seq<DiffRow>)
    ensures rows == HunksRows(hunks)
  {
    rows := [];
    for h := 0 to |hunks|
      invariant rows == HunksRows(hunks[..h])
    {
      var hunkRows := BuildHunkRows(hunks[h].lines);
      HunksRowsSnoc(hunks, h);
      rows := rows + hunkRows;
    }
    assert hunks[..|hunks|] == hunks;
  }

  lemma {:induction false} HunksRowsSnoc(hunks: seq<Hunk>, h: nat)
    requires h < |hunks|
    ensures HunksRows(hunks[..h + 1]) == HunksRows(hunks[..h]) + HunkRows(hunks[h].lines)
  {
    assert hunks[..h + 1][..h] == hunks[..h];
  }

  lemma {:induction false} PatchesRowsSnoc(patches: seq<Patch>, p: nat)
    requires p < |patches|
    ensures PatchesRows(patches[..p + 1]) == PatchesRows(patches[..p]) + HunksRows(patches[p].hunks)
  {
    assert patches[..p + 1][..p] == patches[..p];
  }

  // ---------------------------------------------------------------------
  // Mobile blocks
  // ---------------------------------------------------------------------

  datatype BlockKind = RemovedBlock | AddedBlock | UnchangedBlock

  datatype MobileBlock = MobileBlock(kind: BlockKind, lines: seq<string>)

  /** A modified, removed or added row: one that the grouping loop collects. */
  predicate IsChange(r: DiffRow) {
    r.kind != Unchanged
  }

  predicate AllChanges(rows: seq<DiffRow>) {
    forall t :: 0 <= t < |rows| ==> IsChange(rows[t])
  }

  /** The row contributes its (non-empty) left text to a removed block. */
  predicate KeepsLeft(r: DiffRow) {
    r.left != "" && HasLeftChange(r)
  }

  /** The row contributes its (non-empty) right text to an added block. */
  predicate KeepsRight(r: DiffRow) {
    r.right != "" && HasRightChange(r)
  }

  /** The length of the run of change rows at the front. */
  function ChangeRunLength(rows: seq<DiffRow>): (n: nat)
    ensures n <= |rows|
  {
    if |rows| > 0 && IsChange(rows[0]) then 1 + ChangeRunLength(rows[1..]) else 0
  }

  /** The change run is maximal: its rows are change rows, and the row after it is not. */
  lemma {:induction false} ChangeRunFacts(rows: seq<DiffRow>)
    ensures AllChanges(rows[..ChangeRunLength(rows)])
    ensures ChangeRunLength(rows) < |rows| ==> !IsChange(rows[ChangeRunLength(rows)])
  {
    if |rows| > 0 && IsChange(rows[0]) {
      ChangeRunFacts(rows[1..]);
      var n := ChangeRunLength(rows);
      assert rows[..n] == [rows[0]] + rows[1..][..n - 1];
    }
  }

  /** A change run is determined by where it stops. */
  lemma {:induction false} RunOfChanges(rows: seq<DiffRow>, n: nat)
    requires n <= |rows| && AllChanges(rows[..n])
    requires n < |rows| ==> !IsChange(rows[n])
    ensures ChangeRunLength(rows) == n
  {
    assert rows == rows[..n] + rows[n..];
    ChangeRunOfConcat(rows[..n], rows[n..]);
  }

  /** The change run at the front of `a + b` is `a`, when `a` holds only change rows and `b` does not start with one. */
  lemma {:induction false} ChangeRunOfConcat(a: seq<DiffRow>, b: seq<DiffRow>)
    requires AllChanges(a)
    requires |b| > 0 ==> !IsChange(b[0])
    ensures ChangeRunLength(a + b) == |a|
  {
    if |a| == 0 {
      assert a + b == b;
    } else {
      assert (a + b)[0] == a[0];
      assert (a + b)[1..] == a[1..] + b;
      ChangeRunOfConcat(a[1..], b);
    }
  }

  /** The blocks for one change run: its removed lines, then its added lines, each only when there are some. */
  function Group(removed: seq<string>, added: seq<string>): seq<MobileBlock> {
    (if |removed| > 0 then [MobileBlock(RemovedBlock, removed)] else [])
      + (if |added| > 0 then [MobileBlock(AddedBlock, added)] else [])
  }

  /** The non-empty left texts of removed and modified rows, in order. */
  function RemovedLines(rows: seq<DiffRow>): seq<string> {
    Map(Filter(rows, KeepsLeft), LeftOf)
  }

  /** The non-empty right texts of added and modified rows, in order. */
  function AddedLines(rows: seq<DiffRow>): seq<string> {
    Map(Filter(rows, KeepsRight), RightOf)
  }

  /** The one-line block of an unchanged row. */
  function UnchangedBlockOf(r: DiffRow): MobileBlock {
    MobileBlock(UnchangedBlock, [r.left])
  }

  /** The mobile blocks of a row list: per change run a `Group`, then the unchanged row that ends it. */
  function MobileBlocks(rows: seq<DiffRow>): seq<MobileBlock>
    decreases |rows|
  {
    if |rows| == 0 then []
    else
      var k := ChangeRunLength(rows);
      Group(RemovedLines(rows[..k]), AddedLines(rows[..k]))
        + (if k < |rows| then [UnchangedBlockOf(rows[k])] + MobileBlocks(rows[k + 1..]) else [])
  }

  /** The `mobileRows` memo. Each round consumes at least one row, which is why it terminates. */
  method BuildMobileBlocks(rows: seq<DiffRow>) returns (blocks: seq<MobileBlock>)
    ensures blocks == MobileBlocks(rows)
  {
    blocks := [];
    var i := 0;
    while i < |rows|
      invariant 0 <= i <= |rows|
      invariant blocks + MobileBlocks(rows[i..]) == MobileBlocks(rows)
      decreases |rows| - i
    {
      var step, next, runEnd := GroupRound(rows, i);
      MobileBlocksAt(rows, i, runEnd);
      AdvanceBlocks(blocks, step, MobileBlocks(rows[i..]), MobileBlocks(rows[next..]), MobileBlocks(rows));
      blocks := blocks + step;
      i := next;
    }
  }

  /** The blocks of one round from row i whose change run ends at j: a `Group`, then the unchanged row's block, if any. */
  function RoundBlocks(rows: seq<DiffRow>, i: nat, j: nat): seq<MobileBlock>
    requires i <= j <= |rows|
  {
    Group(RemovedLines(rows[i..j]), AddedLines(rows[i..j])) + (if j < |rows| then [UnchangedBlockOf(rows[j])] else [])
  }

  /** Where the next round starts: after the unchanged row that ended the run, if any. */
  function RoundNext(rows: seq<DiffRow>, j: nat): nat {
    if j < |rows| then j + 1 else j
  }

  /**
   * One round of the grouping loop from row i: the blocks of the change run
   * `rows[i..runEnd]` and of the unchanged row that ends it, if any.
   */
  method GroupRound(rows: seq<DiffRow>, i: nat) returns (step: seq<MobileBlock>, next: nat, ghost runEnd: nat)
    requires i < |rows|
    ensures i <= runEnd <= |rows| && AllChanges(rows[i..runEnd]) && (runEnd < |rows| ==> !IsChange(rows[runEnd]))
    ensures step == RoundBlocks(rows, i, runEnd)
    ensures next == RoundNext(rows, runEnd) && i < next
  {
    var removedLines, addedLines, j := CollectChanges(rows, i);
    runEnd := j;
    step := [];
    if |removedLines| > 0 {
      step := step + [MobileBlock(RemovedBlock, removedLines)];
    }
    if |addedLines| > 0 {
      step := step + [MobileBlock(AddedBlock, addedLines)];
    }
    if j < |rows| && rows[j].kind == Unchanged {
      step := step + [MobileBlock(UnchangedBlock, [rows[j].left])];
      next := j + 1;
    } else {
      next := j;
    }
  }

  /** Book-keeping of the grouping loop: appending the blocks of a round keeps `done + todo == all`. */
  lemma {:induction false} AdvanceBlocks(done: seq<MobileBlock>, step: seq<MobileBlock>, todo: seq<MobileBlock>, todo': seq<MobileBlock>, all: seq<MobileBlock>)
    requires done + todo == all && todo == step + todo'
    ensures (done + step) + todo' == all
  {
  }

  /** The inner loop of the grouping: the change rows from i up to j, with their kept texts. */
  method CollectChanges(rows: seq<DiffRow>, i: nat) returns (removedLines: seq<string>, addedLines: seq<string>, j: nat)
    requires i <= |rows|
    ensures i <= j <= |rows|
    ensures AllChanges(rows[i..j]) && (j < |rows| ==> !IsChange(rows[j]))
    ensures removedLines == RemovedLines(rows[i..j]) && addedLines == AddedLines(rows[i..j])
  {
    removedLines, addedLines := [], [];
    j := i;
    while j < |rows| && (rows[j].kind == Modified || rows[j].kind == Removed || rows[j].kind == Added)
      invariant i <= j <= |rows|
      invariant AllChanges(rows[i..j])
      invariant removedLines == RemovedLines(rows[i..j]) && addedLines == AddedLines(rows[i..j])
    {
      var row := rows[j];
      KeptLinesAppend(rows[i..j], row);
      assert rows[i..j + 1] == rows[i..j] + [row];
      if row.left != "" && (row.kind == Removed || row.kind == Modified) {
        removedLines := removedLines + [row.left];
      }
      if row.right != "" && (row.kind == Added || row.kind == Modified) {
        addedLines := addedLines + [row.right];
      }
      j := j + 1;
    }
  }

  lemma {:induction false} KeptLinesAppend(done: seq<DiffRow>, row: DiffRow)
    ensures RemovedLines(done + [row]) == RemovedLines(done) + (if KeepsLeft(row) then [row.left] else [])
    ensures AddedLines(done + [row]) == AddedLines(done) + (if KeepsRight(row) then [row.right] else [])
  {
    FilterAppend(done, [row], KeepsLeft);
    FilterAppend(done, [row], KeepsRight);
    MapAppend(Filter(done, KeepsLeft), Filter([row], KeepsLeft), LeftOf);
    MapAppend(Filter(done, KeepsRight), Filter([row], KeepsRight), RightOf);
    assert [row][1..] == [];
  }

  /** One round of the grouping from row i, whose change run ends at j. */
  lemma {:induction false} MobileBlocksAt(rows: seq<DiffRow>, i: nat, j: nat)
    requires i <= j <= |rows| && i < |rows|
    requires AllChanges(rows[i..j]) && (j < |rows| ==> !IsChange(rows[j]))
    ensures MobileBlocks(rows[i..]) == RoundBlocks(rows, i, j) + MobileBlocks(rows[RoundNext(rows, j)..])
  {
    var g := Group(RemovedLines(rows[i..j]), AddedLines(rows[i..j]));
    if j < |rows| {
      InnerRound(rows[i..], j - i, rows[i..j], rows[j], rows[j + 1..]);
      AppendAssoc(g, [UnchangedBlockOf(rows[j])], MobileBlocks(rows[j + 1..]));
    } else {
      LastRound(rows[i..], j - i);
      assert rows[i..j] == rows[i..];
      assert MobileBlocks(rows[j..]) == [];
      assert g + [] + [] == g;
    }
  }

  /** A round whose change run `run` is ended by the unchanged row u. */
  lemma {:induction false} InnerRound(rows: seq<DiffRow>, k: nat, run: seq<DiffRow>, u: DiffRow, rest: seq<DiffRow>)
    requires k < |rows| && run == rows[..k] && u == rows[k] && rest == rows[k + 1..]
    requires AllChanges(run) && !IsChange(u)
    ensures MobileBlocks(rows) == Group(RemovedLines(run), AddedLines(run)) + ([UnchangedBlockOf(u)] + MobileBlocks(rest))
  {
    RunOfChanges(rows, k);
    MobileBlocksUnfold(rows, k);
  }

  /** A round whose change run reaches the end of the rows. */
  lemma {:induction false} LastRound(rows: seq<DiffRow>, k: nat)
    requires k == |rows| > 0 && AllChanges(rows)
    ensures MobileBlocks(rows) == Group(RemovedLines(rows), AddedLines(rows))
  {
    assert rows[..k] == rows;
    RunOfChanges(rows, k);
    MobileBlocksUnfold(rows, k);
    assert Group(RemovedLines(rows), AddedLines(rows)) + [] == Group(RemovedLines(rows), AddedLines(rows));
  }

  /** One unfolding of `MobileBlocks`. */
  lemma {:induction false} MobileBlocksUnfold(rows: seq<DiffRow>, k: nat)
    requires |rows| > 0 && k == ChangeRunLength(rows)
    ensures
      MobileBlocks(rows) == Group(RemovedLines(rows[..k]), AddedLines(rows[..k]))
        + (if k < |rows| then [UnchangedBlockOf(rows[k])] + MobileBlocks(rows[k + 1..]) else [])
  {
  }

  lemma {:induction false} AppendAssoc<T>(a: seq<T>, b: seq<T>, c: seq<T>)
    ensures a + (b + c) == (a + b) + c
  {
  }

  // ---------------------------------------------------------------------
  // Properties of the mobile blocks
  // ---------------------------------------------------------------------

  /** No block is empty, and an unchanged block holds exactly one line. */
  predicate BlocksFilled(bs: seq<MobileBlock>) {
    forall t :: 0 <= t < |bs| ==> |bs[t].lines| > 0 && (bs[t].kind == UnchangedBlock ==> |bs[t].lines| == 1)
  }

  /**
   * A removed or added block is followed by an unchanged block, except that
   * a removed block may be followed by the added block of the same run.
   */
  predicate Alternates(bs: seq<MobileBlock>) {
    forall t :: 0 <= t < |bs| - 1 && bs[t].kind != UnchangedBlock ==>
      bs[t + 1].kind == UnchangedBlock || (bs[t].kind == RemovedBlock && bs[t + 1].kind == AddedBlock)
  }

  /** The lines of all the blocks of one kind, in order. */
  function BlockLines(bs: seq<MobileBlock>, kind: BlockKind): seq<string> {
    if |bs| == 0 then [] else (if bs[0].kind == kind then bs[0].lines else []) + BlockLines(bs[1..], kind)
  }

  lemma {:induction false} BlockLinesAppend(a: seq<MobileBlock>, b: seq<MobileBlock>, kind: BlockKind)
    ensures BlockLines(a + b, kind) == BlockLines(a, kind) + BlockLines(b, kind)
  {
    if |a| == 0 {
      assert a + b == b;
    } else {
      assert (a + b)[1..] == a[1..] + b;
      BlockLinesAppend(a[1..], b, kind);
    }
  }

  lemma {:induction false} AlternatesAppend(a: seq<MobileBlock>, b: seq<MobileBlock>)
    requires Alternates(a) && Alternates(b)
    requires |a| > 0 && |b| > 0 ==> a[|a| - 1].kind == UnchangedBlock || b[0].kind == UnchangedBlock
    ensures Alternates(a + b)
  {
    var c := a + b;
    forall t | 0 <= t < |c| - 1 && c[t].kind != UnchangedBlock
      ensures c[t + 1].kind == UnchangedBlock || (c[t].kind == RemovedBlock && c[t + 1].kind == AddedBlock)
    {
      if t < |a| - 1 {
        assert c[t] == a[t] && c[t + 1] == a[t + 1];
      } else if t == |a| - 1 {
        assert c[t] == a[t] && c[t + 1] == b[0];
      } else {
        assert c[t] == b[t - |a|] && c[t + 1] == b[t - |a| + 1];
      }
    }
  }

  lemma {:induction false} FilledAppend(a: seq<MobileBlock>, b: seq<MobileBlock>)
    requires BlocksFilled(a) && BlocksFilled(b)
    ensures BlocksFilled(a + b)
  {
    var c := a + b;
    forall t | 0 <= t < |c|
      ensures |c[t].lines| > 0 && (c[t].kind == UnchangedBlock ==> |c[t].lines| == 1)
    {
      if t < |a| {
        assert c[t] == a[t];
      } else {
        assert c[t] == b[t - |a|];
      }
    }
  }

  lemma {:induction false} GroupShape(removed: seq<string>, added: seq<string>)
    ensures BlocksFilled(Group(removed, added)) && Alternates(Group(removed, added))
  {
  }

  /** The blocks of one round: a `Group`, then (unless the rows ran out) the unchanged row's block. */
  lemma {:induction false} RoundShape(removed: seq<string>, added: seq<string>, tail: seq<MobileBlock>)
    requires tail == [] || (tail[0].kind == UnchangedBlock && |tail[0].lines| == 1)
    requires tail != [] ==> BlocksFilled(tail[1..]) && Alternates(tail[1..])
    ensures BlocksFilled(Group(removed, added) + tail)
    ensures Alternates(Group(removed, added) + tail)
  {
    var g := Group(removed, added);
    GroupShape(removed, added);
    if tail != [] {
      assert [tail[0]] + tail[1..] == tail;
      FilledAppend([tail[0]], tail[1..]);
      AlternatesAppend([tail[0]], tail[1..]);
    }
    FilledAppend(g, tail);
    AlternatesAppend(g, tail);
  }

  /**
   * The grouping never emits an empty block, gives each unchanged row a
   * one-line block, and per change run emits at most one removed block
   * followed by at most one added block.
   */
  lemma {:induction false} MobileBlocksShape(rows: seq<DiffRow>)
    ensures BlocksFilled(MobileBlocks(rows))
    ensures Alternates(MobileBlocks(rows))
    decreases |rows|
  {
    if |rows| > 0 {
      var k := ChangeRunLength(rows);
      var removed, added := RemovedLines(rows[..k]), AddedLines(rows[..k]);
      if k < |rows| {
        MobileBlocksShape(rows[k + 1..]);
        var tail := [UnchangedBlockOf(rows[k])] + MobileBlocks(rows[k + 1..]);
        assert tail[1..] == MobileBlocks(rows[k + 1..]);
        RoundShape(removed, added, tail);
      } else {
        RoundShape(removed, added, []);
        assert Group(removed, added) + [] == Group(removed, added);
      }
    }
  }

  /**
   * Read by kind, the blocks hold exactly the non-empty left texts of the
   * removed and modified rows, the non-empty right texts of the added and
   * modified rows, and the left texts of the unchanged rows, each in order.
   */
  lemma {:induction false} MobileBlocksKeepLines(rows: seq<DiffRow>)
    ensures BlockLines(MobileBlocks(rows), RemovedBlock) == RemovedLines(rows)
    ensures BlockLines(MobileBlocks(rows), AddedBlock) == AddedLines(rows)
    ensures BlockLines(MobileBlocks(rows), UnchangedBlock) == UnchangedSide(rows)
  {
    MobileBlocksKeepKind(rows, RemovedBlock);
    MobileBlocksKeepKind(rows, AddedBlock);
    MobileBlocksKeepKind(rows, UnchangedBlock);
  }

  /** The texts of the rows that go into blocks of the given kind, in order. */
  function KindLines(rows: seq<DiffRow>, kind: BlockKind): seq<string> {
    match kind
    case RemovedBlock => RemovedLines(rows)
    case AddedBlock => AddedLines(rows)
    case UnchangedBlock => UnchangedSide(rows)
  }

  /** `MobileBlocksKeepLines` for one kind of block. */
  lemma {:induction false} MobileBlocksKeepKind(rows: seq<DiffRow>, kind: BlockKind)
    ensures BlockLines(MobileBlocks(rows), kind) == KindLines(rows, kind)
    decreases |rows|
  {
    if |rows| == 0 {
      KindLinesEmpty(rows, kind);
      return;
    }
    var k := ChangeRunLength(rows);
    var run := rows[..k];
    ChangeRunFacts(rows);
    MobileBlocksUnfold(rows, k);
    if k < |rows| {
      var rest := rows[k + 1..];
      MobileBlocksKeepKind(rest, kind);
      SplitAround(rows, k);
      KeepKindAtRound(run, rows[k], rest, MobileBlocks(rest), kind);
    } else {
      assert run == rows;
      RoundKindLines(run, kind);
      assert Group(RemovedLines(run), AddedLines(run)) + [] == Group(RemovedLines(run), AddedLines(run));
    }
  }

  lemma {:induction false} SplitAround<T>(s: seq<T>, k: nat)
    requires k < |s|
    ensures s == s[..k] + ([s[k]] + s[k + 1..])
  {
  }

  lemma {:induction false} KindLinesEmpty(rows: seq<DiffRow>, kind: BlockKind)
    requires rows == []
    ensures KindLines(rows, kind) == []
  {
  }

  /** The step of `MobileBlocksKeepKind` at a change run ended by the unchanged row u, with the blocks `tail` of the rest. */
  lemma {:induction false} KeepKindAtRound(run: seq<DiffRow>, u: DiffRow, rest: seq<DiffRow>, tail: seq<MobileBlock>, kind: BlockKind)
    requires AllChanges(run) && !IsChange(u)
    requires BlockLines(tail, kind) == KindLines(rest, kind)
    ensures BlockLines(Group(RemovedLines(run), AddedLines(run)) + ([UnchangedBlockOf(u)] + tail), kind)
      == KindLines(run + ([u] + rest), kind)
  {
    var g := Group(RemovedLines(run), AddedLines(run));
    calc {
      BlockLines(g + ([UnchangedBlockOf(u)] + tail), kind);
      == { BlockLinesAppend(g, [UnchangedBlockOf(u)] + tail, kind); BlockLinesAppend([UnchangedBlockOf(u)], tail, kind); }
      BlockLines(g, kind) + (BlockLines([UnchangedBlockOf(u)], kind) + BlockLines(tail, kind));
      == { RoundKindLines(run, kind); UnchangedKindLines(u, kind); }
      KindLines(run, kind) + (KindLines([u], kind) + KindLines(rest, kind));
      == { KindLinesAppend([u], rest, kind); KindLinesAppend(run, [u] + rest, kind); }
      KindLines(run + ([u] + rest), kind);
    }
  }

  lemma {:induction false} KindLinesAppend(a: seq<DiffRow>, b: seq<DiffRow>, kind: BlockKind)
    ensures KindLines(a + b, kind) == KindLines(a, kind) + KindLines(b, kind)
  {
    match kind
    case RemovedBlock =>
      FilterAppend(a, b, KeepsLeft);
      MapAppend(Filter(a, KeepsLeft), Filter(b, KeepsLeft), LeftOf);
    case AddedBlock =>
      FilterAppend(a, b, KeepsRight);
      MapAppend(Filter(a, KeepsRight), Filter(b, KeepsRight), RightOf);
    case UnchangedBlock =>
      FilterAppend(a, b, IsUnchangedRow);
      MapAppend(Filter(a, IsUnchangedRow), Filter(b, IsUnchangedRow), LeftOf);
  }

  /** The blocks of a change run hold its texts of each kind, which include no unchanged text. */
  lemma {:induction false} RoundKindLines(run: seq<DiffRow>, kind: BlockKind)
    requires AllChanges(run)
    ensures BlockLines(Group(RemovedLines(run), AddedLines(run)), kind) == KindLines(run, kind)
  {
    var removed, added := RemovedLines(run), AddedLines(run);
    var r := if |removed| > 0 then [MobileBlock(RemovedBlock, removed)] else [];
    var a := if |added| > 0 then [MobileBlock(AddedBlock, added)] else [];
    BlockLinesAppend(r, a, kind);
    if kind == UnchangedBlock {
      FilterNone(run, IsUnchangedRow);
    }
  }

  /** The block of an unchanged row holds its text as an unchanged line and nothing else. */
  lemma {:induction false} UnchangedKindLines(u: DiffRow, kind: BlockKind)
    requires !IsChange(u)
    ensures BlockLines([UnchangedBlockOf(u)], kind) == KindLines([u], kind)
  {
    assert [UnchangedBlockOf(u)][1..] == [];
    assert [u][1..] == [];
  }
}
