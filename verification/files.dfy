/**
 * The source registry: the path and text of every loaded file, addressed by
 * `FileRef` handles, and the line lookups that diagnostics use.
 *
 * The source keeps the registry in a process-wide global; here it is an
 * explicit `FileManager` object that callers pass in.
 */
module Files {
  import opened Wrappers

  /** An opaque handle: the position of a file in the registry. */
  datatype FileRef = FileRef(index: nat)
  {
    /** The text of the file this handle names. */
    function Source(reg: FileManager): string
      reads reg
      requires reg.Holds(this)
    {
      reg.sources[index]
    }

    /** The path of the file this handle names. */
    function Path(reg: FileManager): string
      reads reg
      requires reg.Holds(this)
    {
      reg.paths[index]
    }

    /**
     * The characters of zero-based line `line`, without its '\n'; empty
     * when the file has no such line.
     */
    method LineSource(reg: FileManager, line: nat) returns (lineSrc: string)
      requires reg.Holds(this)
      ensures lineSrc == LineText(reg.sources[index], line)
    {
      var text := reg.sources[index];
      lineSrc := [];
      var cLine := 0;
      var i := 0;
      while i < |text|
        invariant i <= |text|
        invariant cLine == NewlinesBefore(text, i)
        invariant lineSrc == Collected(text, i, line)
      {
        var c := text[i];
        if c == '\n' {
          cLine := cLine + 1;
        }
        if cLine > line {
          CollectedStable(text, i + 1, |text|, line);
          i := i + 1;
          break;
        }
        if cLine == line && c != '\n' {
          lineSrc := lineSrc + [c];
        }
        i := i + 1;
      }
      CollectedIsLineText(text, line, |text|);
    }

    /**
     * The offset of the first character of zero-based line `line`; `None`
     * where the source panics because no character starts that line.
     */
    method GetLinePos(reg: FileManager, line: nat) returns (r: Option<nat>)
      requires reg.Holds(this)
      ensures r == LineStart(reg.sources[index], line)
    {
      var text := reg.sources[index];
      var cLine := 0;
      var i := 0;
      while i < |text|
        invariant i <= |text|
        invariant cLine == NewlinesBefore(text, i)
        invariant forall j :: 0 <= j < i ==> !OnLine(text, j, line)
      {
        if cLine == line {
          assert OnLine(text, i, line);
          return Some(i);
        }
        if text[i] == '\n' {
          cLine := cLine + 1;
        }
        i := i + 1;
      }
      return None;
    }
  }

  /** The append-only registry of loaded files. */
  class FileManager {
    var paths: seq<string>
    var sources: seq<string>

    ghost predicate Valid()
      reads this
    {
      |paths| == |sources|
    }

    /** Whether `f` names a loaded file. */
    predicate Holds(f: FileRef)
      reads this
    {
      f.index < |paths| && f.index < |sources|
    }

    /** The empty registry (`init`). */
    constructor ()
      ensures Valid() && paths == [] && sources == []
    {
      paths, sources := [], [];
    }

    /** Registers one more file; every earlier entry stays as it was. */
    method LoadFileSrc(path: string, source: string)
      requires Valid()
      modifies this
      ensures Valid()
      ensures paths == old(paths) + [path] && sources == old(sources) + [source]
      ensures Holds(FileRef(|old(paths)|))
      ensures forall f :: old(Holds(f)) ==> Holds(f) && f.Source(this) == old(f.Source(this))
    {
      paths := paths + [path];
      sources := sources + [source];
    }

    /** A handle for entry `index`, which must already be loaded. */
    method RefFile(index: nat) returns (r: Option<FileRef>)
      requires Valid()
      ensures r.Some? <==> index < |paths|
      ensures r.Some? ==> r.value.index == index && Holds(r.value)
    {
      if index < |paths| {
        r := Some(FileRef(index));
      } else {
        r := None;
      }
    }
  }

  /** The number of '\n' characters in `text[..i]`: the zero-based line of offset `i`. */
  function NewlinesBefore(text: string, i: nat): nat
    requires i <= |text|
  {
    if i == 0 then 0
    else NewlinesBefore(text, i - 1) + (if text[i - 1] == '\n' then 1 else 0)
  }

  /** Line numbers grow by at most one per character, and never shrink. */
  lemma {:induction false} NewlinesMonotone(text: string, i: nat, j: nat)
    requires i <= j <= |text|
    ensures NewlinesBefore(text, i) <= NewlinesBefore(text, j) <= NewlinesBefore(text, i) + (j - i)
    decreases j - i
  {
    if i < j {
      NewlinesMonotone(text, i, j - 1);
    }
  }

  /** Without a '\n' in `text[i..j]`, offsets `i` and `j` are on the same line. */
  lemma {:induction false} NewlinesConstant(text: string, i: nat, j: nat)
    requires i <= j <= |text|
    requires forall k :: i <= k < j ==> text[k] != '\n'
    ensures NewlinesBefore(text, j) == NewlinesBefore(text, i)
    decreases j - i
  {
    if i < j {
      NewlinesConstant(text, i, j - 1);
    }
  }

  /** Position `j` lies on zero-based line `line`. */
  predicate OnLine(text: string, j: nat, line: nat)
    requires j <= |text|
  {
    NewlinesBefore(text, j) == line
  }

  /** The first offset at or after `i` that lies on line `line`. */
  function LineStartFrom(text: string, line: nat, i: nat): (r: Option<nat>)
    requires i <= |text|
    ensures r.Some? ==> i <= r.value < |text| && OnLine(text, r.value, line) && NewlinesBefore(text, r.value) == line
    ensures r.Some? ==> forall j :: i <= j < r.value ==> !OnLine(text, j, line)
    ensures r.None? ==> forall j :: i <= j < |text| ==> !OnLine(text, j, line)
    decreases |text| - i
  {
    if i == |text| then None
    else if NewlinesBefore(text, i) == line then Some(i)
    else LineStartFrom(text, line, i + 1)
  }

  /**
   * The smallest offset whose line is `line`, if the text has one: the
   * offset of the line's first character.
   */
  function LineStart(text: string, line: nat): (r: Option<nat>)
    ensures r.Some? ==> r.value < |text| && OnLine(text, r.value, line) && NewlinesBefore(text, r.value) == line
    ensures r.Some? ==> forall j :: 0 <= j < r.value ==> !OnLine(text, j, line)
    ensures r.None? <==> forall j :: 0 <= j < |text| ==> !OnLine(text, j, line)
  {
    LineStartFrom(text, line, 0)
  }

  /** The offset of the first '\n' at or after `p`, or the end of the text. */
  function LineEnd(text: string, p: nat): (q: nat)
    requires p <= |text|
    ensures p <= q <= |text|
    ensures forall k :: p <= k < q ==> text[k] != '\n'
    ensures q < |text| ==> text[q] == '\n'
    decreases |text| - p
  {
    if p == |text| || text[p] == '\n' then p else LineEnd(text, p + 1)
  }

  /**
   * Zero-based line `line` of `text`: the characters from its first offset
   * up to the next '\n' or the end; empty when no character starts it.
   */
  function LineText(text: string, line: nat): string
  {
    match LineStart(text, line)
    case None => []
    case Some(p) => text[p..LineEnd(text, p)]
  }

  /**
   * The characters of `text[..i]` that `line_source` keeps: those not '\n'
   * whose line, counted after them, is `line`.
   */
  ghost function Collected(text: string, i: nat, line: nat): string
    requires i <= |text|
  {
    if i == 0 then []
    else
      Collected(text, i - 1, line)
      + (if NewlinesBefore(text, i) == line && text[i - 1] != '\n' then [text[i - 1]] else [])
  }

  /** Once the count of '\n' has passed `line`, no more characters are kept. */
  lemma {:induction false} CollectedStable(text: string, i: nat, k: nat, line: nat)
    requires i <= k <= |text|
    requires NewlinesBefore(text, i) > line
    ensures Collected(text, k, line) == Collected(text, i, line)
    decreases k - i
  {
    if i < k {
      CollectedStable(text, i, k - 1, line);
      NewlinesMonotone(text, i, k);
    }
  }

  /** What the character loop of `line_source` keeps is exactly `LineText`. */
  lemma CollectedIsLineText(text: string, line: nat, i: nat)
    requires i <= |text|
    ensures LineStart(text, line).None? ==> Collected(text, i, line) == []
    ensures LineStart(text, line).Some? ==>
      var p := LineStart(text, line).value;
      var q := LineEnd(text, p);
      Collected(text, i, line) == if i <= p then [] else text[p..if i < q then i else q]
    ensures i == |text| ==> Collected(text, i, line) == LineText(text, line)
  {
    match LineStart(text, line)
    case None => CollectedNoLine(text, line, i);
    case Some(p) => CollectedOnLine(text, line, p, i);
  }

  /** When no character starts the line, nothing is kept. */
  lemma {:induction false} CollectedNoLine(text: string, line: nat, i: nat)
    requires i <= |text| && LineStart(text, line).None?
    ensures Collected(text, i, line) == []
    decreases i
  {
    if i > 0 {
      CollectedNoLine(text, line, i - 1);
      var j := i - 1;
      assert !OnLine(text, j, line);
      if text[j] != '\n' {
        assert NewlinesBefore(text, i) == NewlinesBefore(text, j);
      }
    }
  }

  /** The characters kept from `text[..i]` are the part of the line from `p` that lies before `i`. */
  lemma {:induction false} CollectedOnLine(text: string, line: nat, p: nat, i: nat)
    requires i <= |text| && LineStart(text, line) == Some(p)
    ensures i <= p ==> Collected(text, i, line) == []
    ensures p < i <= LineEnd(text, p) ==> Collected(text, i, line) == text[p..i]
    ensures LineEnd(text, p) < i ==> Collected(text, i, line) == text[p..LineEnd(text, p)]
    decreases i
  {
    if i > 0 {
      var j := i - 1;
      var q := LineEnd(text, p);
      CollectedOnLine(text, line, p, j);
      CollectedOnLineStep(text, line, p, j);
      if j < p {
        assert Collected(text, i, line) == [];
      } else if j < q {
        assert Collected(text, i, line) == Collected(text, j, line) + [text[j]];
        assert text[p..i] == text[p..j] + [text[j]];
      } else {
        assert Collected(text, i, line) == Collected(text, j, line);
      }
    }
  }

  /** Past a line's start, `line_source` keeps a character exactly when it lies before the line's end. */
  lemma CollectedOnLineStep(text: string, line: nat, p: nat, j: nat)
    requires j < |text| && LineStart(text, line) == Some(p)
    ensures Collected(text, j + 1, line) == Collected(text, j, line) + (if p <= j < LineEnd(text, p) then [text[j]] else [])
  {
    var q := LineEnd(text, p);
    if j < p {
      assert !OnLine(text, j, line);
      if text[j] != '\n' {
        assert NewlinesBefore(text, j + 1) == NewlinesBefore(text, j);
      }
    } else if j < q {
      NewlinesConstant(text, p, j + 1);
    } else if j > q {
      NewlinesConstant(text, p, q);
      assert NewlinesBefore(text, q + 1) == line + 1;
      NewlinesMonotone(text, q + 1, j + 1);
    }
  }

  /** A line beyond the last one has no start, and `line_source` gives "". */
  lemma LinePastEndIsEmpty(text: string, line: nat)
    requires line > NewlinesBefore(text, |text|)
    ensures LineStart(text, line) == None
    ensures LineText(text, line) == []
  {
    forall j | 0 <= j < |text|
      ensures !OnLine(text, j, line)
    {
      NewlinesMonotone(text, j, |text|);
    }
  }

  /**
   * The empty line after a final '\n' has no first character, so
   * `get_line_pos` fails on it; line 0 of a non-empty text starts at 0.
   */
  lemma TrailingNewlineLineHasNoStart(text: string)
    requires text != [] && text[|text| - 1] == '\n'
    ensures LineStart(text, NewlinesBefore(text, |text|)) == None
    ensures LineStart(text, 0) == Some(0)
  {
    var n := NewlinesBefore(text, |text|);
    forall j | 0 <= j < |text|
      ensures !OnLine(text, j, n)
    {
      NewlinesMonotone(text, j, |text| - 1);
    }
  }
}
