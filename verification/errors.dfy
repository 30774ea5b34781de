/**
 * Diagnostics: compile errors, the result type that carries them, and the
 * rendering of an error as a source excerpt with a gutter and an underline.
 *
 * Colours and ANSI escapes are not modelled; every `Fmt` marker of the
 * source is dropped from the rendered text.
 */
module Errors {
  import opened Wrappers
  import opened Decimal
  import opened Files
  import opened Spans

  /** A suggested fix: a message and an example source line shown under it. */
  datatype Help = Help(msg: string, source: string, line: nat)

  /**
   * What a diagnostic says: a short cause, the message printed under the
   * underline, an optional grammatical context and an optional hint.
   */
  datatype ErrorInfo = ErrorInfo(cause: string, pointer: string, context: Option<string>, help: Option<Help>)

  /**
   * A compile error. `Error` and `Warning` carry the scope and the
   * diagnostic, rendered on demand by `Msg`. `Panic` stands for an
   * `assert!`/`expect` failure of the source, which aborts without a
   * diagnostic, and `Diverges` for a point where the source loops forever.
   */
  datatype CompileErr =
    | Error(scope: SrcScope, info: ErrorInfo)
    | Warning(scope: SrcScope, info: ErrorInfo)
    | Panic(message: string)
    | Diverges(at: SrcScope)
  {
    /** Whether the registry can render this error: its scope touches a character of a loaded file. */
    predicate Renderable(reg: FileManager)
      reads reg
    {
      match this
      case Error(scope, _) => reg.Holds(scope.file) && scope.start < scope.end && scope.start < |reg.sources[scope.file.index]|
      case Warning(scope, _) => reg.Holds(scope.file) && scope.start < scope.end && scope.start < |reg.sources[scope.file.index]|
      case Panic(_) => true
      case Diverges(_) => false
    }

    /** The text of the error: its full report for `Error`/`Warning`, the message of a panic. */
    method Msg(reg: FileManager) returns (msg: string)
      requires Renderable(reg)
      ensures Error? ==> msg == Report("error", scope.file.Path(reg), scope.file.Source(reg), scope, info)
      ensures Warning? ==> msg == Report("warning", scope.file.Path(reg), scope.file.Source(reg), scope, info)
      ensures Panic? ==> msg == message
    {
      match this
      case Error(scope, info) =>
        msg := CreateError(reg, "error", scope, info);
      case Warning(scope, info) =>
        msg := CreateError(reg, "warning", scope, info);
      case Panic(message) =>
        msg := message;
    }
  }

  /**
   * A value or the error that stops compilation. `.fatal()` and `.unwrap()`
   * of the source are Dafny's `:-`: an `Ok` payload comes back unchanged
   * and an `Err` ends the computation with that error.
   */
  datatype CompileResult<T> = Ok(value: T) | Err(err: CompileErr)
  {
    predicate IsFailure() {
      Err?
    }

    function PropagateFailure<U>(): CompileResult<U>
      requires Err?
    {
      Err(err)
    }

    function Extract(): T
      requires Ok?
    {
      value
    }
  }

  /** One line of a diagnostic excerpt. */
  datatype DebugLine =
    | Text(text: string)
    | Source(line: nat, source: string)
    | Underline(ch: char, offset: nat, len: nat, msg: string)
    | GroupedSource(line: nat, source: string)
    | GroupedUnderline(ch: char, offset: nat, len: nat, msg: string)
    | File(path: string, line: nat, col: nat)
    | SourceSkip
    | Blank
    | Empty
  {
    /**
     * The gutter text shown left of the bar: the 1-based line number for
     * source lines, with no leading zero (so the numeral is the one
     * `NatToString` gives, by `CanonicalDigitsRoundTrip`), nothing for
     * header and text lines.
     */
    function Gutter(): (g: Option<string>)
      ensures g.None? <==> Text? || File? || Empty?
      ensures (Source? || GroupedSource?) ==> AllDigits(g.value) && |g.value| >= 1 && DigitsValue(g.value) == line + 1 && g.value[0] != '0'
      ensures (Underline? || GroupedUnderline? || Blank?) ==> g.value == ""
      ensures SourceSkip? ==> g.value == "..."
    {
      match this
      case Text(_) => None
      case Source(line, _) => Some(NatToString(line + 1))
      case Underline(_, _, _, _) => Some("")
      case GroupedSource(line, _) => Some(NatToString(line + 1))
      case GroupedUnderline(_, _, _, _) => Some("")
      case File(_, _, _) => None
      case SourceSkip => Some("...")
      case Blank => Some("")
      case Empty => None
    }

    /** The body of the line, right of the gutter. */
    function Fmt(): (r: string)
      ensures SourceSkip? || Blank? || Empty? ==> r == ""
      ensures GroupedSource? || GroupedUnderline? ==> |r| >= 2 && r[..2] == "| "
    {
      match this
      case Text(text) => text
      case Source(_, source) => source
      case Underline(ch, offset, len, msg) => UnderlineText(ch, offset, len, msg)
      case GroupedSource(_, source) => "| " + source
      case GroupedUnderline(ch, offset, len, msg) => "| " + UnderlineText(ch, offset, len, msg)
      case File(path, line, col) => "file " + path + ":" + NatToString(line + 1) + ":" + NatToString(col + 1)
      case SourceSkip => ""
      case Blank => ""
      case Empty => ""
    }
  }

  /**
   * What a line's body shows: a source line its text verbatim at the end,
   * an underline its run of markers, a space and the message at the end,
   * a file header the word `file` and the path; grouped lines carry the
   * "| " bar in front, and a skip, a blank or an empty line has no body.
   */
  lemma FmtShape(l: DebugLine)
    ensures l.SourceSkip? || l.Blank? || l.Empty? ==> l.Fmt() == ""
    ensures l.Text? ==> l.Fmt() == l.text
    ensures l.GroupedSource? || l.GroupedUnderline? ==> |l.Fmt()| >= 2 && l.Fmt()[..2] == "| "
    ensures l.Source? || l.GroupedSource? ==> var r := l.Fmt(); |r| >= |l.source| && r[|r| - |l.source|..] == l.source
    ensures l.File? ==> var r := l.Fmt(); |r| >= 5 + |l.path| && r[..5] == "file " && r[5..5 + |l.path|] == l.path
  {
  }

  /** An underline's body ends in its run of markers, a space and the message. */
  lemma UnderlineShape(l: DebugLine)
    ensures l.Underline? || l.GroupedUnderline? ==> var r := l.Fmt();
      |r| >= l.len + 1 + |l.msg| && r[|r| - |l.msg|..] == l.msg && r[|r| - |l.msg| - 1] == ' '
      && forall k :: |r| - |l.msg| - 1 - l.len <= k < |r| - |l.msg| - 1 ==> r[k] == l.ch
  {
    if l.Underline? || l.GroupedUnderline? {
      var u := UnderlineText(l.ch, l.offset, l.len, l.msg);
      var pre := if l.GroupedUnderline? then "| " else "";
      var r := l.Fmt();
      assert r == pre + u;
      var m := |r| - |l.msg|;
      assert r[m..] == u[l.offset + l.len + 1..];
      assert r[m - 1] == u[l.offset + l.len];
      forall k | m - 1 - l.len <= k < m - 1
        ensures r[k] == l.ch
      {
        assert r[k] == u[k - |pre|];
      }
    }
  }

  /** `n` copies of `c`. */
  function Repeat(c: char, n: nat): (r: string)
    ensures |r| == n && forall k :: 0 <= k < n ==> r[k] == c
  {
    if n == 0 then [] else Repeat(c, n - 1) + [c]
  }

  /** `offset` spaces, `len` copies of `ch`, one space, then the message. */
  function UnderlineText(ch: char, offset: nat, len: nat, msg: string): (r: string)
    ensures |r| == offset + len + 1 + |msg|
    ensures forall k :: 0 <= k < offset ==> r[k] == ' '
    ensures forall k :: offset <= k < offset + len ==> r[k] == ch
    ensures r[offset + len] == ' ' && r[offset + len + 1..] == msg
  {
    Repeat(' ', offset) + Repeat(ch, len) + " " + msg
  }

  /** The gutter `text` right-aligned to `gutterSize`, then " | ". */
  function FmtGutter(text: string, gutterSize: nat): (r: string)
    requires |text| <= gutterSize
    ensures |r| == gutterSize + 3
    ensures forall k :: 0 <= k < gutterSize - |text| ==> r[k] == ' '
    ensures r[gutterSize - |text|..] == text + " | "
  {
    Repeat(' ', gutterSize - |text|) + text + " | "
  }

  function GutterLen(l: DebugLine): nat {
    if l.Gutter().Some? then |l.Gutter().value| else 0
  }

  /** The widest gutter among `lines`, 0 when none has one. */
  function GutterWidth(lines: seq<DebugLine>): (w: nat)
    ensures forall i :: 0 <= i < |lines| ==> GutterLen(lines[i]) <= w
  {
    if lines == [] then 0
    else
      var prefix := lines[..|lines| - 1];
      var w := GutterWidth(prefix);
      var g := GutterLen(lines[|lines| - 1]);
      assert forall i :: 0 <= i < |prefix| ==> prefix[i] == lines[i];
      if g > w then g else w
  }

  /** A non-zero width is the gutter length of one of the lines. */
  lemma {:induction false} GutterWidthAttained(lines: seq<DebugLine>)
    ensures var w := GutterWidth(lines);
      w == 0 || exists i :: 0 <= i < |lines| && GutterLen(lines[i]) == w
  {
    if lines != [] {
      var prefix := lines[..|lines| - 1];
      GutterWidthAttained(prefix);
      var w := GutterWidth(prefix);
      if GutterLen(lines[|lines| - 1]) <= w && w != 0 {
        var i :| 0 <= i < |prefix| && GutterLen(prefix[i]) == w;
        assert lines[i] == prefix[i];
      }
    }
  }

  /** The widest gutter of one more line is the wider of the two. */
  lemma GutterWidthPrefix(lines: seq<DebugLine>, i: nat)
    requires i < |lines|
    ensures GutterWidth(lines[..i + 1]) == if GutterLen(lines[i]) > GutterWidth(lines[..i]) then GutterLen(lines[i]) else GutterWidth(lines[..i])
  {
    assert lines[..i + 1][..i] == lines[..i];
  }

  /** One output line: the padded gutter if the line has one, the body, a '\n'. */
  function RenderLine(l: DebugLine, gutterSize: nat): string
    requires GutterLen(l) <= gutterSize
  {
    (if l.Gutter().Some? then FmtGutter(l.Gutter().value, gutterSize) else "") + l.Fmt() + "\n"
  }

  /** All lines rendered in order against one gutter width. */
  function Render(lines: seq<DebugLine>, gutterSize: nat): string
    requires forall i :: 0 <= i < |lines| ==> GutterLen(lines[i]) <= gutterSize
  {
    if lines == [] then ""
    else Render(lines[..|lines| - 1], gutterSize) + RenderLine(lines[|lines| - 1], gutterSize)
  }

  lemma RenderPrefix(lines: seq<DebugLine>, i: nat, gutterSize: nat)
    requires i < |lines|
    requires forall k :: 0 <= k < |lines| ==> GutterLen(lines[k]) <= gutterSize
    ensures Render(lines[..i + 1], gutterSize) == Render(lines[..i], gutterSize) + RenderLine(lines[i], gutterSize)
  {
    assert lines[..i + 1][..i] == lines[..i];
  }

  /** No gutter contains a '\n'. */
  lemma GutterHasNoNewline(l: DebugLine)
    ensures l.Gutter().Some? ==> '\n' !in l.Gutter().value
  {
    if l.Source? || l.GroupedSource? {
      var g := l.Gutter().value;
      assert forall k :: 0 <= k < |g| ==> IsDigit(g[k]);
    }
  }

  /**
   * When no line body contains a '\n', the rendering has exactly one '\n'
   * per line: each `DebugLine` is one output line.
   */
  lemma {:induction false} RenderLineCount(lines: seq<DebugLine>, gutterSize: nat)
    requires forall i :: 0 <= i < |lines| ==> GutterLen(lines[i]) <= gutterSize
    requires forall i :: 0 <= i < |lines| ==> '\n' !in lines[i].Fmt()
    ensures multiset(Render(lines, gutterSize))['\n'] == |lines|
    decreases |lines|
  {
    if lines != [] {
      var prefix := lines[..|lines| - 1];
      assert forall i :: 0 <= i < |prefix| ==> prefix[i] == lines[i];
      RenderLineCount(prefix, gutterSize);
      RenderLineOneNewline(lines[|lines| - 1], gutterSize);
    }
  }

  /** A padded gutter has a '\n' only if its text does. */
  lemma FmtGutterNoNewline(text: string, gutterSize: nat)
    requires |text| <= gutterSize && '\n' !in text
    ensures '\n' !in FmtGutter(text, gutterSize)
  {
    var r := FmtGutter(text, gutterSize);
    var pad := gutterSize - |text|;
    forall k | 0 <= k < |r|
      ensures r[k] != '\n'
    {
      if k < pad {
        assert r[k] == ' ';
      } else if k < pad + |text| {
        assert r[k] == r[pad..][k - pad] == text[k - pad];
      } else {
        assert r[k] == r[pad..][k - pad] == " | "[k - pad - |text|];
      }
    }
  }

  /** A line whose body has no '\n' renders with exactly one, its last character. */
  lemma RenderLineOneNewline(l: DebugLine, gutterSize: nat)
    requires GutterLen(l) <= gutterSize && '\n' !in l.Fmt()
    ensures multiset(RenderLine(l, gutterSize))['\n'] == 1
  {
    var pre := if l.Gutter().Some? then FmtGutter(l.Gutter().value, gutterSize) else "";
    if l.Gutter().Some? {
      GutterHasNoNewline(l);
      FmtGutterNoNewline(l.Gutter().value, gutterSize);
    }
    assert RenderLine(l, gutterSize) == pre + l.Fmt() + "\n";
    OneNewlineAtEnd(pre, l.Fmt());
  }

  lemma OneNewlineAtEnd(a: string, b: string)
    requires '\n' !in a && '\n' !in b
    ensures multiset(a + b + "\n")['\n'] == 1
  {
    assert multiset(a + b + "\n") == multiset(a) + multiset(b) + multiset("\n");
    assert multiset(a)['\n'] == 0 && multiset(b)['\n'] == 0 && multiset("\n")['\n'] == 1;
  }

  /** The three lines `DebugLines::help` appends. */
  function HelpLines(help: Help): seq<DebugLine> {
    [Text("help: " + help.msg), Source(help.line, help.source), Blank]
  }

  /** The lines of a diagnostic under construction. */
  class DebugLines {
    var lines: seq<DebugLine>

    constructor ()
      ensures lines == []
    {
      lines := [];
    }

    method PushLine(line: DebugLine)
      modifies this
      ensures lines == old(lines) + [line]
    {
      lines := lines + [line];
    }

    /** Appends the hint: its message, its example source line, a blank line. */
    method AddHelp(help: Help)
      modifies this
      ensures lines == old(lines) + HelpLines(help)
      ensures lines[|lines| - 3].Text? && lines[|lines| - 2].Source? && lines[|lines| - 1].Blank?
    {
      PushLine(Text("help: " + help.msg));
      PushLine(Source(help.line, help.source));
      PushLine(Blank);
    }

    /** The widest gutter: a running maximum over the lines. */
    method GutterSize() returns (gutterSize: nat)
      ensures gutterSize == GutterWidth(lines)
    {
      gutterSize := 0;
      var i := 0;
      while i < |lines|
        invariant i <= |lines|
        invariant gutterSize == GutterWidth(lines[..i])
      {
        GutterWidthPrefix(lines, i);
        var gutter := lines[i].Gutter();
        if gutter.Some? && |gutter.value| > gutterSize {
          gutterSize := |gutter.value|;
        }
        i := i + 1;
      }
      assert lines[..i] == lines;
    }

    /**
     * The whole excerpt: every line, in order, each with its gutter padded
     * to the widest one and a final '\n'.
     */
    method Fmt() returns (s: string)
      ensures s == Render(lines, GutterWidth(lines))
    {
      var gutterSize := GutterSize();
      s := "";
      var i := 0;
      while i < |lines|
        invariant i <= |lines|
        invariant s == Render(lines[..i], gutterSize)
      {
        RenderPrefix(lines, i, gutterSize);
        var line := lines[i];
        var gutter := line.Gutter();
        var padded := "";
        if gutter.Some? {
          padded := FmtGutter(gutter.value, gutterSize);
        }
        s := s + (padded + line.Fmt() + "\n");
        i := i + 1;
      }
      assert lines[..i] == lines;
    }
  }

  /** One `GroupedSource` line per listed line, in order. */
  function GroupedSources(text: string, lines: seq<nat>): (r: seq<DebugLine>)
    ensures |r| == |lines|
    ensures forall k :: 0 <= k < |lines| ==> r[k] == GroupedSource(lines[k], LineText(text, lines[k]))
  {
    if lines == [] then []
    else GroupedSources(text, lines[..|lines| - 1]) + [GroupedSource(lines[|lines| - 1], LineText(text, lines[|lines| - 1]))]
  }

  /**
   * The excerpt `underline_scope` appends for `scope`: a `file path:line:col`
   * header, then either the source line and an underline under the scope,
   * or every covered line with a grouping bar and one grouped underline
   * that runs to the scope's end on its last line. It uses the corrected
   * line list, which never names a line without a first character.
   */
  function Excerpt(path: string, text: string, scope: SrcScope, pointer: string): seq<DebugLine>
    requires scope.start < scope.end && scope.start < |text|
  {
    var lines := CoveredLines(text, scope.start, scope.end);
    CoveredEndsHaveStarts(text, scope.start, scope.end);
    ExcerptFor(path, text, scope, pointer, lines, LineStart(text, lines[0]).value, LineStart(text, lines[|lines| - 1]).value)
  }

  /** The excerpt for a given list of lines, given the offsets where the first and the last of them start. */
  function ExcerptFor(path: string, text: string, scope: SrcScope, pointer: string,
                      lines: seq<nat>, firstLinePos: nat, lastLinePos: nat): (r: seq<DebugLine>)
    requires |lines| >= 1 && firstLinePos <= scope.start <= scope.end && lastLinePos <= scope.end
    ensures |r| >= 3 && r[0] == File(path, lines[0], scope.start - firstLinePos)
  {
    [File(path, lines[0], scope.start - firstLinePos)]
    + if |lines| == 1 then
        [Source(lines[0], LineText(text, lines[0])), Underline('^', scope.start - firstLinePos, scope.Len(), pointer)]
      else
        GroupedSources(text, lines) + [GroupedUnderline('^', 0, scope.end - lastLinePos, pointer)]
  }

  /**
   * The excerpt's first line is the header naming the line of `start` and
   * its column: the distance from the line's first character to `start`
   * (`LineStartBefore` says what lies in between).
   */
  lemma ExcerptHeader(path: string, text: string, scope: SrcScope, pointer: string)
    requires scope.start < scope.end && scope.start < |text|
    ensures var p := LineStart(text, NewlinesBefore(text, scope.start));
      p.Some? && p.value <= scope.start
      && Excerpt(path, text, scope, pointer)[0] == File(path, NewlinesBefore(text, scope.start), scope.start - p.value)
  {
    var lines := CoveredLines(text, scope.start, scope.end);
    ExcerptFirst(path, text, scope, pointer);
    assert lines[0] == NewlinesBefore(text, scope.start);
  }

  lemma ExcerptFirst(path: string, text: string, scope: SrcScope, pointer: string)
    requires scope.start < scope.end && scope.start < |text|
    ensures var lines := CoveredLines(text, scope.start, scope.end);
      var p := LineStart(text, lines[0]);
      p.Some? && p.value <= scope.start
      && Excerpt(path, text, scope, pointer)[0] == File(path, lines[0], scope.start - p.value)
  {
    var lines := CoveredLines(text, scope.start, scope.end);
    CoveredEndsHaveStarts(text, scope.start, scope.end);
    ExcerptUnfold(path, text, scope, pointer, lines, LineStart(text, lines[0]).value, LineStart(text, lines[|lines| - 1]).value);
  }

  /**
   * The line holding position `s` starts at or before `s`, after a '\n'
   * or at the beginning of the text, and no '\n' lies in between.
   */
  lemma LineStartBefore(text: string, s: nat)
    requires s < |text|
    ensures var p := LineStart(text, NewlinesBefore(text, s));
      p.Some? && p.value <= s
      && (forall k :: p.value <= k < s ==> text[k] != '\n')
      && (p.value == 0 || text[p.value - 1] == '\n')
  {
    var l := NewlinesBefore(text, s);
    assert OnLine(text, s, l);
    var p := LineStart(text, l).value;
    NoNewlineWithin(text, p, s);
    if p > 0 {
      assert !OnLine(text, p - 1, l);
    }
  }

  /** Two offsets with as many newlines before them have none between them. */
  lemma NoNewlineWithin(text: string, i: nat, j: nat)
    requires i <= j <= |text| && NewlinesBefore(text, i) == NewlinesBefore(text, j)
    ensures forall k :: i <= k < j ==> text[k] != '\n'
  {
    forall k | i <= k < j
      ensures text[k] != '\n'
    {
      NewlinesMonotone(text, i, k);
      NewlinesMonotone(text, k + 1, j);
    }
  }

  /**
   * A scope with no '\n' strictly inside it before its last character
   * renders as header, source line and an underline as wide as the scope;
   * any other as header, one grouped line per covered line (at least two)
   * and a grouped underline.
   */
  lemma ExcerptShape(path: string, text: string, scope: SrcScope, pointer: string)
    requires scope.start < scope.end && scope.start < |text|
    ensures var e := Excerpt(path, text, scope, pointer);
      var m := Min(scope.end, |text|);
      var lines := CoveredLines(text, scope.start, scope.end);
      if forall k :: scope.start < k < m - 1 ==> text[k] != '\n' then
        |e| == 3 && e[1] == Source(lines[0], LineText(text, lines[0]))
        && e[2].Underline? && e[2].offset == e[0].col && e[2].len == scope.end - scope.start
      else
        |e| == |lines| + 2 && |lines| >= 2
        && (forall k :: 0 <= k < |lines| ==> e[k + 1] == GroupedSource(lines[k], LineText(text, lines[k])))
        && e[|e| - 1].GroupedUnderline? && e[|e| - 1].offset == 0
  {
    CoveredLinesSingle(text, scope.start, scope.end);
  }

  /**
   * The excerpt as the source computes it, from the uncorrected line
   * list; `None` where the source panics because `get_line_pos` finds no
   * start for the last listed line.
   */
  function ExcerptAsWritten(path: string, text: string, scope: SrcScope, pointer: string): (r: Option<seq<DebugLine>>)
    requires scope.start < scope.end && scope.start < |text|
    ensures var lines := LinesOf(text, scope.start, scope.end);
      r.None? <==> |lines| > 1 && LineStart(text, lines[|lines| - 1]).None?
    ensures r.Some? ==> |r.value| >= 3 && r.value[0].File? && r.value[0].line == NewlinesBefore(text, scope.start)
  {
    var lines := LinesOf(text, scope.start, scope.end);
    CoveredLinesHaveStarts(text, scope.start, scope.end);
    LinesOfLastStart(text, scope.start, scope.end);
    var firstLinePos := LineStart(text, lines[0]).value;
    if |lines| == 1 then
      Some(ExcerptFor(path, text, scope, pointer, lines, firstLinePos, firstLinePos))
    else
      match LineStart(text, lines[|lines| - 1])
      case None => None
      case Some(lastLinePos) => Some(ExcerptFor(path, text, scope, pointer, lines, firstLinePos, lastLinePos))
  }

  /**
   * Wherever the scope's last character is not a '\n' after `start`, the
   * source's excerpt exists and is the corrected one.
   */
  lemma ExcerptAsWrittenAgrees(path: string, text: string, scope: SrcScope, pointer: string)
    requires scope.start < scope.end && scope.start < |text|
    requires var m := Min(scope.end, |text|); !(m - 1 > scope.start && text[m - 1] == '\n')
    ensures ExcerptAsWritten(path, text, scope, pointer) == Some(Excerpt(path, text, scope, pointer))
  {
    CoveredLinesTrimmed(text, scope.start, scope.end);
    CoveredEndsHaveStarts(text, scope.start, scope.end);
  }

  /**
   * The final `End` of a file ending in '\n' sits on that '\n': its scope
   * starts there, lists one line, and renders as written.
   */
  lemma FinalEndRenders(path: string, text: string, file: FileRef, pointer: string)
    requires |text| >= 1 && text[|text| - 1] == '\n'
    ensures |LinesOf(text, |text| - 1, |text|)| == 1
    ensures ExcerptAsWritten(path, text, SrcScope(|text| - 1, |text|, file), pointer)
      == Some(Excerpt(path, text, SrcScope(|text| - 1, |text|, file), pointer))
  {
    ExcerptAsWrittenAgrees(path, text, SrcScope(|text| - 1, |text|, file), pointer);
  }

  /**
   * A scope that starts before the final '\n' of a text and runs to its
   * end (the error of an unterminated string in such a file) cannot be
   * rendered as written: its line list names the empty line after that
   * '\n'.
   */
  lemma TrailingNewlineSpanFails(path: string, text: string, start: nat, file: FileRef, pointer: string)
    requires |text| >= 2 && text[|text| - 1] == '\n' && start < |text| - 1
    ensures ExcerptAsWritten(path, text, SrcScope(start, |text|, file), pointer) == None
  {
    var n := |text|;
    var lines := LinesOf(text, start, n);
    NewlinesMonotone(text, start + 1, n - 1);
    assert NewlinesBefore(text, n) == NewlinesBefore(text, n - 1) + 1;
    assert lines[|lines| - 1] == NewlinesBefore(text, n);
    TrailingNewlineLineHasNoStart(text);
  }

  /** The same failure on the smallest such file: `"ab` followed by a newline. */
  lemma UnterminatedStringExample(file: FileRef)
    ensures ExcerptAsWritten("datapack.mccs", "\"ab\n", SrcScope(0, 4, file), "opening quote is missing a matching closing quote") == None
  {
    TrailingNewlineSpanFails("datapack.mccs", "\"ab\n", 0, file, "opening quote is missing a matching closing quote");
  }

  /** The header line: the diagnostic kind and cause, then the context if any. */
  function Header(ty: string, info: ErrorInfo): string {
    ty + ": " + info.cause + "\n"
    + (if info.context.Some? then "context: " + info.context.value + "\n" else "")
  }

  /**
   * The full report `create_error` builds: header, then the excerpt and
   * hint lines rendered together. Right after the header it names the
   * file, then the 1-based line and column of the scope's first character.
   */
  function Report(ty: string, path: string, text: string, scope: SrcScope, info: ErrorInfo): (r: string)
    requires scope.start < scope.end && scope.start < |text|
    ensures Header(ty, info) < r
    ensures var l := NewlinesBefore(text, scope.start);
      var p := LineStart(text, l);
      p.Some? && p.value <= scope.start
      && Header(ty, info) + FileLine(path, l, scope.start - p.value) <= r
  {
    var lines := ReportLines(path, text, scope, info);
    var l := NewlinesBefore(text, scope.start);
    BlockAfterHeader(Header(ty, info), lines, path, l, scope.start - LineStart(text, l).value);
    Header(ty, info) + Render(lines, GutterWidth(lines))
  }

  /** The lines of a report below its header: the excerpt, opening with its file header, then the hint if there is one. */
  function ReportLines(path: string, text: string, scope: SrcScope, info: ErrorInfo): (r: seq<DebugLine>)
    requires scope.start < scope.end && scope.start < |text|
    ensures var l := NewlinesBefore(text, scope.start);
      var p := LineStart(text, l);
      p.Some? && p.value <= scope.start
      && |r| >= 1 && r[0] == File(path, l, scope.start - p.value)
  {
    ExcerptHeader(path, text, scope, info.pointer);
    Excerpt(path, text, scope, info.pointer) + (if info.help.Some? then HelpLines(info.help.value) else [])
  }

  /** A header followed by lines that open with a file header. */
  lemma BlockAfterHeader(header: string, lines: seq<DebugLine>, path: string, line: nat, col: nat)
    requires |lines| >= 1 && lines[0] == File(path, line, col)
    ensures header + FileLine(path, line, col) <= header + Render(lines, GutterWidth(lines))
  {
    RenderFileFirst(lines, GutterWidth(lines), path, line, col);
    PrefixConcat(header, FileLine(path, line, col), Render(lines, GutterWidth(lines)));
  }

  lemma PrefixConcat(x: string, y: string, z: string)
    requires y <= z
    ensures x + y <= x + z
  {
  }

  lemma ConcatAssoc(x: string, y: string, z: string)
    ensures (x + y) + z == x + (y + z)
  {
  }

  /** Rendering a concatenation renders the parts one after the other. */
  lemma {:induction false} RenderAppend(a: seq<DebugLine>, b: seq<DebugLine>, gutterSize: nat)
    requires forall i :: 0 <= i < |a| ==> GutterLen(a[i]) <= gutterSize
    requires forall i :: 0 <= i < |b| ==> GutterLen(b[i]) <= gutterSize
    ensures forall i :: 0 <= i < |a + b| ==> GutterLen((a + b)[i]) <= gutterSize
    ensures Render(a + b, gutterSize) == Render(a, gutterSize) + Render(b, gutterSize)
    decreases |b|
  {
    if b == [] {
      assert a + b == a;
      assert Render(b, gutterSize) == "";
    } else {
      var b' := b[..|b| - 1];
      var last := RenderLine(b[|b| - 1], gutterSize);
      assert (a + b)[..|a + b| - 1] == a + b' && (a + b)[|a + b| - 1] == b[|b| - 1];
      RenderAppend(a, b', gutterSize);
      assert Render(a + b, gutterSize) == Render(a + b', gutterSize) + last;
      assert Render(b, gutterSize) == Render(b', gutterSize) + last;
      ConcatAssoc(Render(a, gutterSize), Render(b', gutterSize), last);
    }
  }

  /** The rendered header line of a file at a 0-based line and column. */
  function FileLine(path: string, line: nat, col: nat): string {
    "file " + path + ":" + NatToString(line + 1) + ":" + NatToString(col + 1) + "\n"
  }

  /** Lines that open with a file header render starting with it. */
  lemma RenderFileFirst(lines: seq<DebugLine>, gutterSize: nat, path: string, line: nat, col: nat)
    requires |lines| >= 1 && lines[0] == File(path, line, col)
    requires forall i :: 0 <= i < |lines| ==> GutterLen(lines[i]) <= gutterSize
    ensures FileLine(path, line, col) <= Render(lines, gutterSize)
  {
    var rest := lines[1..];
    assert lines == [lines[0]] + rest;
    RenderAppend([lines[0]], rest, gutterSize);
    RenderOne(lines[0], gutterSize);
    FileLineRendered(path, line, col, gutterSize);
    PrefixConcat([], FileLine(path, line, col), Render(lines, gutterSize));
  }

  lemma RenderOne(l: DebugLine, gutterSize: nat)
    requires GutterLen(l) <= gutterSize
    ensures Render([l], gutterSize) == RenderLine(l, gutterSize)
  {
    assert [l][..0] == [];
  }

  lemma FileLineRendered(path: string, line: nat, col: nat, gutterSize: nat)
    ensures GutterLen(File(path, line, col)) == 0
    ensures RenderLine(File(path, line, col), gutterSize) == FileLine(path, line, col)
  {
  }

  /**
   * Appends the excerpt for `scope` to `fmt`. The source takes the line
   * list of `SrcScope::lines`; the model drops its last entry when the
   * scope's last character is a '\n' (see `CoveredLinesTrimmed`), so the
   * lookup of the last line's start cannot fail.
   */
  method UnderlineScope(fmt: DebugLines, reg: FileManager, scope: SrcScope, pointer: string)
    requires reg.Holds(scope.file)
    requires scope.start < scope.end && scope.start < |reg.sources[scope.file.index]|
    modifies fmt
    ensures fmt.lines == old(fmt.lines) + Excerpt(scope.file.Path(reg), scope.file.Source(reg), scope, pointer)
  {
    var lines := CoveredScopeLines(reg, scope);
    CoveredEndsHaveStarts(scope.file.Source(reg), scope.start, scope.end);
    var firstLinePos := scope.file.GetLinePos(reg, lines[0]);
    ExcerptUnfold(scope.file.Path(reg), scope.file.Source(reg), scope, pointer, lines,
                  firstLinePos.value, LineStart(scope.file.Source(reg), lines[|lines| - 1]).value);
    if |lines| == 1 {
      UnderlineSingle(fmt, reg, scope, pointer, lines, firstLinePos.value);
    } else {
      UnderlineGrouped(fmt, reg, scope, pointer, lines, firstLinePos.value);
    }
  }

  /** The one-line branch of `underline_scope`: header, source line, underline. */
  method UnderlineSingle(fmt: DebugLines, reg: FileManager, scope: SrcScope, pointer: string,
                         lines: seq<nat>, firstLinePos: nat)
    requires reg.Holds(scope.file)
    requires |lines| == 1 && firstLinePos <= scope.start <= scope.end
    modifies fmt
    ensures fmt.lines == old(fmt.lines) + ExcerptFor(scope.file.Path(reg), scope.file.Source(reg), scope, pointer, lines, firstLinePos, firstLinePos)
  {
    var header := File(scope.file.Path(reg), lines[0], scope.start - firstLinePos);
    fmt.PushLine(header);
    var source := scope.file.LineSource(reg, lines[0]);
    fmt.PushLine(Source(lines[0], source));
    fmt.PushLine(Underline('^', scope.start - firstLinePos, scope.Len(), pointer));
  }

  /**
   * The several-line branch of `underline_scope`: header, every covered
   * line with a grouping bar, and an underline to the scope's end on the
   * last line.
   */
  method UnderlineGrouped(fmt: DebugLines, reg: FileManager, scope: SrcScope, pointer: string,
                          lines: seq<nat>, firstLinePos: nat)
    requires reg.Holds(scope.file)
    requires |lines| >= 2 && firstLinePos <= scope.start <= scope.end
    requires LineStart(scope.file.Source(reg), lines[|lines| - 1]).Some?
    requires LineStart(scope.file.Source(reg), lines[|lines| - 1]).value <= scope.end
    modifies fmt
    ensures fmt.lines == old(fmt.lines) + ExcerptFor(scope.file.Path(reg), scope.file.Source(reg), scope, pointer, lines, firstLinePos,
                                                      LineStart(scope.file.Source(reg), lines[|lines| - 1]).value)
  {
    var header := File(scope.file.Path(reg), lines[0], scope.start - firstLinePos);
    fmt.PushLine(header);
    PushGroupedSources(fmt, reg, scope.file, lines);
    var linePos := scope.file.GetLinePos(reg, lines[|lines| - 1]);
    var underline := GroupedUnderline('^', 0, scope.end - linePos.value, pointer);
    fmt.PushLine(underline);
    Regroup(old(fmt.lines), header, GroupedSources(scope.file.Source(reg), lines), underline);
    ExcerptForGrouped(scope.file.Path(reg), scope.file.Source(reg), scope, pointer, lines, firstLinePos, linePos.value);
  }

  /** The lines of `SrcScope::lines`, less a last entry that has no first character. */
  method CoveredScopeLines(reg: FileManager, scope: SrcScope) returns (lines: seq<nat>)
    requires reg.Holds(scope.file)
    requires scope.start < scope.end && scope.start < |reg.sources[scope.file.index]|
    ensures lines == CoveredLines(scope.file.Source(reg), scope.start, scope.end)
  {
    var text := reg.sources[scope.file.index];
    lines := scope.Lines(reg);
    var m := Min(scope.end, |text|);
    CoveredLinesTrimmed(text, scope.start, scope.end);
    if m - 1 > scope.start && text[m - 1] == '\n' {
      lines := lines[..|lines| - 1];
    }
  }

  lemma CoveredEndsHaveStarts(text: string, start: nat, end: nat)
    requires start < end && start < |text|
    ensures var lines := CoveredLines(text, start, end);
      LineStart(text, lines[0]).Some? && LineStart(text, lines[0]).value <= start
      && LineStart(text, lines[|lines| - 1]).Some? && LineStart(text, lines[|lines| - 1]).value <= end
  {
    var lines := CoveredLines(text, start, end);
    CoveredLinesHaveStarts(text, start, end);
    assert lines[|lines| - 1] in lines;
  }

  /** Appends one grouped source line per entry of `lines`, in order. */
  method PushGroupedSources(fmt: DebugLines, reg: FileManager, file: FileRef, lines: seq<nat>)
    requires reg.Holds(file)
    modifies fmt
    ensures fmt.lines == old(fmt.lines) + GroupedSources(file.Source(reg), lines)
  {
    var i := 0;
    while i < |lines|
      invariant i <= |lines|
      invariant fmt.lines == old(fmt.lines) + GroupedSources(file.Source(reg), lines[..i])
    {
      var source := file.LineSource(reg, lines[i]);
      GroupedSourcesSnoc(file.Source(reg), lines, i);
      fmt.PushLine(GroupedSource(lines[i], source));
      i := i + 1;
    }
    assert lines[..i] == lines;
  }

  lemma ExcerptForGrouped(path: string, text: string, scope: SrcScope, pointer: string,
                           lines: seq<nat>, firstLinePos: nat, lastLinePos: nat)
    requires |lines| >= 2 && firstLinePos <= scope.start <= scope.end && lastLinePos <= scope.end
    ensures ExcerptFor(path, text, scope, pointer, lines, firstLinePos, lastLinePos)
      == [File(path, lines[0], scope.start - firstLinePos)]
         + (GroupedSources(text, lines) + [GroupedUnderline('^', 0, scope.end - lastLinePos, pointer)])
  {
  }

  lemma Regroup(before: seq<DebugLine>, header: DebugLine, grouped: seq<DebugLine>, underline: DebugLine)
    ensures before + [header] + grouped + [underline] == before + ([header] + (grouped + [underline]))
  {
  }

  lemma GroupedSourcesSnoc(text: string, lines: seq<nat>, i: nat)
    requires i < |lines|
    ensures GroupedSources(text, lines[..i + 1]) == GroupedSources(text, lines[..i]) + [GroupedSource(lines[i], LineText(text, lines[i]))]
  {
    assert lines[..i + 1][..i] == lines[..i];
  }

  /** `Excerpt` is `ExcerptFor` on the corrected lines and their starts. */
  lemma ExcerptUnfold(path: string, text: string, scope: SrcScope, pointer: string,
                      lines: seq<nat>, firstLinePos: nat, lastLinePos: nat)
    requires scope.start < scope.end && scope.start < |text|
    requires lines == CoveredLines(text, scope.start, scope.end)
    requires LineStart(text, lines[0]) == Some(firstLinePos)
    requires LineStart(text, lines[|lines| - 1]) == Some(lastLinePos)
    ensures firstLinePos <= scope.start && lastLinePos <= scope.end
    ensures Excerpt(path, text, scope, pointer) == ExcerptFor(path, text, scope, pointer, lines, firstLinePos, lastLinePos)
  {
    CoveredEndsHaveStarts(text, scope.start, scope.end);
  }

  /** Renders a diagnostic of kind `ty` ("error" or "warning") for `scope`. */
  method CreateError(reg: FileManager, ty: string, scope: SrcScope, info: ErrorInfo) returns (msg: string)
    requires reg.Holds(scope.file)
    requires scope.start < scope.end && scope.start < |reg.sources[scope.file.index]|
    ensures msg == Report(ty, scope.file.Path(reg), scope.file.Source(reg), scope, info)
  {
    msg := ty + ": " + info.cause + "\n";
    if info.context.Some? {
      msg := msg + "context: " + info.context.value + "\n";
    }
    assert msg == Header(ty, info);
    ghost var excerpt := Excerpt(scope.file.Path(reg), scope.file.Source(reg), scope, info.pointer);
    var fmt := new DebugLines();
    UnderlineScope(fmt, reg, scope, info.pointer);
    assert fmt.lines == excerpt;
    if info.help.Some? {
      fmt.AddHelp(info.help.value);
    }
    ghost var all := excerpt + (if info.help.Some? then HelpLines(info.help.value) else []);
    assert fmt.lines == all;
    var body := fmt.Fmt();
    msg := msg + body;
  }
}
