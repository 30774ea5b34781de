/**
 * Source scopes: a range of character offsets in one registered file, as
 * carried by every token and used to anchor diagnostics.
 *
 * src/lexer/tokens.rs carries a textually identical `SrcScope`; both are
 * modelled by this one datatype.
 */
module Spans {
  import opened Files

  datatype SrcScope = SrcScope(start: nat, end: nat, file: FileRef)
  {
    /**
     * The scope from this one's start to `other`'s end. Both must be in the
     * same file; when `other` comes after this scope the result covers both.
     */
    function Join(other: SrcScope): (r: SrcScope)
      requires file == other.file
      ensures r.file == file && r.start == start && r.end == other.end
      ensures start <= other.start && end <= other.end ==> Covers(r, this) && Covers(r, other)
    {
      SrcScope(start, other.end, file)
    }

    /** The width of the scope; the source's `end - start` underflows if `end < start`. */
    function Len(): (n: nat)
      requires start <= end
      ensures start + n == end
    {
      end - start
    }

    /**
     * The zero-based lines the scope touches, as `SrcScope::lines` lists
     * them: the line of `start`, then one more entry for every '\n' strictly
     * inside the scope.
     */
    method Lines(reg: FileManager) returns (lines: seq<nat>)
      requires reg.Holds(file)
      ensures lines == LinesOf(reg.sources[file.index], start, end)
    {
      var text := reg.sources[file.index];
      lines := [];
      var line := 0;
      var i := 0;
      while i < |text|
        invariant i <= |text| && i <= end
        invariant line == NewlinesBefore(text, i)
        invariant lines == LinesSoFar(text, start, i)
      {
        if i >= end {
          break;
        }
        if i == start {
          lines := lines + [line];
        }
        if text[i] == '\n' {
          line := line + 1;
          if i > start {
            lines := lines + [line];
          }
        }
        i := i + 1;
      }
    }
  }

  /** `outer` contains `inner`: same file, and `inner`'s offsets lie within `outer`'s. */
  predicate Covers(outer: SrcScope, inner: SrcScope) {
    outer.file == inner.file && outer.start <= inner.start && inner.end <= outer.end
  }

  function Min(a: nat, b: nat): nat {
    if a < b then a else b
  }

  /** `count` consecutive numbers starting at `first`. */
  function Consecutive(first: nat, count: nat): (r: seq<nat>)
    ensures |r| == count
    ensures forall k :: 0 <= k < count ==> r[k] == first + k
  {
    seq(count, k => first + k)
  }

  /**
   * A line list: the line `first`, then one entry for each '\n' counted
   * after `a` newlines up to `b` newlines, each the line that '\n' opens.
   */
  function LineRun(first: nat, a: nat, b: nat): (r: seq<nat>)
    requires a <= b
    ensures |r| == 1 + b - a && r[0] == first
    ensures forall k :: 0 < k < |r| ==> r[k] == a + k
  {
    [first] + Consecutive(a + 1, b - a)
  }

  /** One '\n' fewer counted drops exactly the last entry. */
  lemma LineRunTrim(first: nat, a: nat, b: nat)
    requires a <= b
    ensures LineRun(first, a, b + 1)[..1 + b - a] == LineRun(first, a, b)
  {
  }

  /** What the loop of `SrcScope::lines` has listed after visiting offsets below `i`. */
  ghost function LinesSoFar(text: string, start: nat, i: nat): seq<nat>
    requires i <= |text|
  {
    if i <= start then []
    else
      NewlinesMonotone(text, start + 1, i);
      LineRun(NewlinesBefore(text, start), NewlinesBefore(text, start + 1), NewlinesBefore(text, i))
  }

  /**
   * The lines listed by `SrcScope::lines` for the scope `[start, end)` of
   * `text`: empty unless `start < end` and `start` is inside the text;
   * otherwise the line of `start`, then, for each '\n' strictly after
   * `start` and before `end`, the line that '\n' opens.
   */
  function LinesOf(text: string, start: nat, end: nat): (r: seq<nat>)
    ensures r != [] <==> start < end && start < |text|
    ensures r != [] ==> r[0] == NewlinesBefore(text, start)
  {
    if start < end && start < |text| then
      var m := Min(end, |text|);
      NewlinesMonotone(text, start + 1, m);
      LineRun(NewlinesBefore(text, start), NewlinesBefore(text, start + 1), NewlinesBefore(text, m))
    else []
  }

  /** The last line `lines()` lists starts, if at all, before the end of the scope. */
  lemma LinesOfLastStart(text: string, start: nat, end: nat)
    requires start < end && start < |text|
    ensures var lines := LinesOf(text, start, end);
      LineStart(text, lines[|lines| - 1]).Some? ==> LineStart(text, lines[|lines| - 1]).value <= end
  {
    var m := Min(end, |text|);
    var lines := LinesOf(text, start, end);
    NewlinesMonotone(text, start + 1, m);
    if |lines| == 1 {
      assert OnLine(text, start, lines[0]);
    } else {
      assert lines[|lines| - 1] == NewlinesBefore(text, m);
      if m < |text| {
        assert OnLine(text, m, lines[|lines| - 1]);
      }
    }
  }

  /** `NewlinesBefore` counts exactly the '\n' characters of the prefix. */
  lemma {:induction false} NewlinesBeforeCounts(text: string, i: nat)
    requires i <= |text|
    ensures NewlinesBefore(text, i) == multiset(text[..i])['\n']
    decreases i
  {
    if i > 0 {
      NewlinesBeforeCounts(text, i - 1);
      assert text[..i] == text[..i - 1] + [text[i - 1]];
    }
  }

  /**
   * A non-empty line list has one entry for the line of `start` and one
   * more for each '\n' strictly between `start` and the end of the scope
   * (or of the text).
   */
  lemma LinesOfCount(text: string, start: nat, end: nat)
    requires start < end && start < |text|
    ensures |LinesOf(text, start, end)| == 1 + multiset(text[start + 1..Min(end, |text|)])['\n']
  {
    var m := Min(end, |text|);
    NewlinesBeforeCounts(text, start + 1);
    NewlinesBeforeCounts(text, m);
    assert text[..m] == text[..start + 1] + text[start + 1..m];
  }

  /**
   * When the scope does not start on a '\n', the listed lines are
   * consecutive and the last is the line of the scope's last offset. (A
   * scope that starts on a '\n' skips the line that '\n' opens.)
   */
  lemma LinesOfConsecutive(text: string, start: nat, end: nat)
    requires start < end && start < |text| && text[start] != '\n'
    ensures var r := LinesOf(text, start, end);
      (forall k :: 0 <= k < |r| ==> r[k] == NewlinesBefore(text, start) + k)
      && r[|r| - 1] == NewlinesBefore(text, Min(end, |text|))
  {
    var r := LinesOf(text, start, end);
    assert NewlinesBefore(text, start + 1) == NewlinesBefore(text, start);
    forall k | 0 <= k < |r|
      ensures r[k] == NewlinesBefore(text, start) + k
    {
      if k > 0 {
        assert r[k] == NewlinesBefore(text, start + 1) + 1 + (k - 1);
      }
    }
  }

  /**
   * The corrected line list that diagnostics use: `LinesOf` without the
   * entry that a '\n' at the scope's last offset (after `start`) would
   * open. When the scope does not start on a '\n' these are the lines
   * that hold a character of the scope (`CoveredLinesConsecutive`); one
   * that starts there skips the line that '\n' opens, as `lines()` does.
   */
  function CoveredLines(text: string, start: nat, end: nat): (r: seq<nat>)
    ensures r != [] <==> start < end && start < |text|
    ensures r != [] ==> r[0] == NewlinesBefore(text, start)
  {
    if start < end && start < |text| then
      var m := Min(end, |text|);
      var last := if m - 1 > start then m - 1 else start + 1;
      NewlinesMonotone(text, start + 1, last);
      LineRun(NewlinesBefore(text, start), NewlinesBefore(text, start + 1), NewlinesBefore(text, last))
    else []
  }

  /**
   * The corrected list is the as-written one, less its last entry exactly
   * when the scope's last character is a '\n' after `start`.
   */
  lemma CoveredLinesTrimmed(text: string, start: nat, end: nat)
    requires start < end && start < |text|
    ensures var m := Min(end, |text|);
      var lines := LinesOf(text, start, end);
      if m - 1 > start && text[m - 1] == '\n'
      then |lines| >= 2 && CoveredLines(text, start, end) == lines[..|lines| - 1]
      else CoveredLines(text, start, end) == lines
  {
    var m := Min(end, |text|);
    if m - 1 > start {
      NewlinesMonotone(text, start + 1, m - 1);
      if text[m - 1] == '\n' {
        TrimmedAtNewline(text, start, end);
      } else {
        assert NewlinesBefore(text, m) == NewlinesBefore(text, m - 1);
      }
    }
  }

  /** A scope whose last character is a '\n' after `start` loses exactly the line that '\n' opens. */
  lemma TrimmedAtNewline(text: string, start: nat, end: nat)
    requires start < end && start < |text|
    requires Min(end, |text|) - 1 > start && text[Min(end, |text|) - 1] == '\n'
    ensures var lines := LinesOf(text, start, end);
      |lines| >= 2 && CoveredLines(text, start, end) == lines[..|lines| - 1]
  {
    var m := Min(end, |text|);
    NewlinesMonotone(text, start + 1, m - 1);
    var f, a, b := NewlinesBefore(text, start), NewlinesBefore(text, start + 1), NewlinesBefore(text, m - 1);
    assert NewlinesBefore(text, m) == b + 1;
    LineRunTrim(f, a, b);
  }

  /**
   * When the scope does not start on a '\n', the corrected list runs
   * without gaps from the line of `start` to the line of the scope's last
   * character.
   */
  lemma CoveredLinesConsecutive(text: string, start: nat, end: nat)
    requires start < end && start < |text| && text[start] != '\n'
    ensures var r := CoveredLines(text, start, end);
      (forall k :: 0 <= k < |r| ==> r[k] == NewlinesBefore(text, start) + k)
      && r[|r| - 1] == NewlinesBefore(text, Min(end, |text|) - 1)
  {
    var m := Min(end, |text|);
    assert NewlinesBefore(text, start + 1) == NewlinesBefore(text, start);
    if m - 1 > start {
      NewlinesMonotone(text, start + 1, m - 1);
    }
  }

  /**
   * The corrected list names a single line exactly when no '\n' lies
   * strictly between `start` and the scope's last character.
   */
  lemma CoveredLinesSingle(text: string, start: nat, end: nat)
    requires start < end && start < |text|
    ensures var m := Min(end, |text|);
      |CoveredLines(text, start, end)| == 1 <==> forall k :: start < k < m - 1 ==> text[k] != '\n'
  {
    var m := Min(end, |text|);
    var r := CoveredLines(text, start, end);
    if m - 1 > start {
      assert |r| == 1 + NewlinesBefore(text, m - 1) - NewlinesBefore(text, start + 1);
      if forall k :: start < k < m - 1 ==> text[k] != '\n' {
        NewlinesConstant(text, start + 1, m - 1);
      } else {
        var k :| start < k < m - 1 && text[k] == '\n';
        NewlinesMonotone(text, start + 1, k);
        assert NewlinesBefore(text, k + 1) == NewlinesBefore(text, k) + 1;
        NewlinesMonotone(text, k + 1, m - 1);
      }
    } else {
      assert |r| == 1;
    }
  }

  /**
   * Every line in the corrected list has a first character, at an offset
   * before the end of the scope: `get_line_pos` succeeds on all of them.
   */
  lemma CoveredLinesHaveStarts(text: string, start: nat, end: nat)
    requires start < end && start < |text|
    ensures forall l :: l in CoveredLines(text, start, end) ==>
      LineStart(text, l).Some? && LineStart(text, l).value < Min(end, |text|)
    ensures LineStart(text, CoveredLines(text, start, end)[0]).value <= start
  {
    var r := CoveredLines(text, start, end);
    assert OnLine(text, start, r[0]);
    forall l | l in r
      ensures LineStart(text, l).Some? && LineStart(text, l).value < Min(end, |text|)
    {
      var k :| 0 <= k < |r| && r[k] == l;
      if k > 0 {
        CoveredLineHasStart(text, start, end, k);
      }
    }
  }

  /** A covered line after the first is reached by a '\n' inside the scope, so it starts there. */
  lemma CoveredLineHasStart(text: string, start: nat, end: nat, k: nat)
    requires start < end && start < |text| && 0 < k < |CoveredLines(text, start, end)|
    ensures var l := CoveredLines(text, start, end)[k];
      LineStart(text, l).Some? && LineStart(text, l).value < Min(end, |text|)
  {
    var m := Min(end, |text|);
    var last := if m - 1 > start then m - 1 else start + 1;
    NewlinesMonotone(text, start + 1, last);
    var l := CoveredLines(text, start, end)[k];
    assert l == NewlinesBefore(text, start + 1) + k;
    var p := OffsetOfLine(text, start + 1, last, l);
    assert OnLine(text, p, l);
  }

  /**
   * Between offsets `lo` and `hi`, every line number reached after `lo`
   * is the line of some offset in `(lo, hi]`.
   */
  lemma {:induction false} OffsetOfLine(text: string, lo: nat, hi: nat, target: nat) returns (p: nat)
    requires lo <= hi <= |text|
    requires NewlinesBefore(text, lo) < target <= NewlinesBefore(text, hi)
    ensures lo < p <= hi && NewlinesBefore(text, p) == target
    decreases hi - lo
  {
    if NewlinesBefore(text, lo + 1) == target {
      p := lo + 1;
    } else {
      NewlinesMonotone(text, lo, lo + 1);
      p := OffsetOfLine(text, lo + 1, hi, target);
    }
  }
}
