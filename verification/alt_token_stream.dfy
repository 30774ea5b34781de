/**
 * The alternate cursor: `TokenIter` over an `End`-terminated list, with a
 * look-back at the previous token, path reading (`a:b:c`), a visiting loop
 * whose callback may advance the cursor, and an in-place rewrite of every
 * token at every nesting depth.
 */
module AltTokenStreams {
  import opened Wrappers
  import opened Errors
  import opened Tokens
  import opened TokenStreams
  import AltTokens

  // ---------------------------------------------------------------------
  // Paths

  /** One further path segment: its separator and its name. */
  datatype PathPart = PathPart(sep: SepTok, ident: IdentTok)

  /** A path: a first name and the segments after it, in order. */
  datatype Path = Path(first: IdentTok, parts: seq<PathPart>)

  /** The tokens a run of path segments is written as. */
  function PartTokens(ps: seq<PathPart>): (r: seq<Token>)
    ensures |r| == 2 * |ps|
    decreases |ps|
  {
    if ps == [] then []
    else
      var sep: Token := ps[0].sep;
      var ident: Token := ps[0].ident;
      [sep, ident] + PartTokens(ps[1..])
  }

  /** A path with its segments read, and the position of the `End` that stopped it. */
  datatype PathRead = PathRead(path: Path, cursor: nat)

  /**
   * The `get_path` loop from position `i`: until `End`, a separator (any
   * one) then an identifier, each appended to `path`; anything else is
   * fatal.
   */
  function PathFrom(ts: seq<Token>, i: nat, path: Path, context: Option<string>): (r: CompileResult<PathRead>)
    requires i < |ts| && ts[|ts| - 1].End?
    ensures r.Ok? ==> i <= r.value.cursor < |ts| && ts[r.value.cursor].End?
    ensures r.Ok? ==> r.value.path.first == path.first
    decreases |ts| - i
  {
    var t := ts[i];
    if t.End? then Ok(PathRead(path, i))
    else
      var sep :- AltTokens.ExpectSep(t, context, None);
      var part :- AltTokens.ExpectIdent(ts[i + 1], context, None);
      PathFrom(ts, i + 2, path.(parts := path.parts + [PathPart(sep, part)]), context)
  }

  lemma PathFromStep(ts: seq<Token>, i: nat, path: Path, context: Option<string>)
    requires i + 1 < |ts| && ts[|ts| - 1].End? && ts[i].Sep? && ts[i + 1].Ident?
    ensures PathFrom(ts, i, path, context) == PathFrom(ts, i + 2, path.(parts := path.parts + [PathPart(ts[i], ts[i + 1])]), context)
  {
  }

  /** A segment that does not start with a separator, or whose separator is not followed by an identifier, is the error. */
  lemma PathFromFails(ts: seq<Token>, i: nat, path: Path, context: Option<string>)
    requires i < |ts| && ts[|ts| - 1].End? && !ts[i].End?
    ensures !ts[i].Sep? ==> PathFrom(ts, i, path, context) == Err(AltTokens.ExpectSep(ts[i], context, None).err)
    ensures ts[i].Sep? && !ts[i + 1].Ident? ==> PathFrom(ts, i, path, context) == Err(AltTokens.ExpectIdent(ts[i + 1], context, None).err)
  {
  }

  /** Segments written out and followed by `End` are read back exactly, stopping on that `End`. */
  lemma {:induction false} PathFromWritten(ts: seq<Token>, i: nat, ps: seq<PathPart>, path: Path, context: Option<string>)
    requires i < |ts| && ts[|ts| - 1].End?
    requires ts[i..] == PartTokens(ps) + [ts[|ts| - 1]]
    ensures PathFrom(ts, i, path, context) == Ok(PathRead(path.(parts := path.parts + ps), i + 2 * |ps|))
    decreases |ps|
  {
    if ps == [] {
      assert ts[i] == ts[i..][0];
      assert path.parts + [] == path.parts;
    } else {
      assert ts[i] == ts[i..][0] == ps[0].sep;
      assert ts[i + 1] == ts[i..][1] == ps[0].ident;
      assert ts[i + 2..] == ts[i..][2..];
      assert ts[i..][2..] == PartTokens(ps[1..]) + [ts[|ts| - 1]];
      var path' := path.(parts := path.parts + [ps[0]]);
      PathFromWritten(ts, i + 2, ps[1..], path', context);
      assert path'.parts + ps[1..] == path.parts + ps;
    }
  }

  /** Conversely, what the loop reads is exactly the segments it appended, written out, up to the `End`. */
  lemma {:induction false} PathFromReads(ts: seq<Token>, i: nat, path: Path, context: Option<string>)
    requires i < |ts| && ts[|ts| - 1].End?
    ensures var r := PathFrom(ts, i, path, context);
      r.Ok? ==>
        |path.parts| <= |r.value.path.parts| && r.value.path.parts[..|path.parts|] == path.parts
        && ts[i..r.value.cursor] == PartTokens(r.value.path.parts[|path.parts|..])
    decreases |ts| - i
  {
    var r := PathFrom(ts, i, path, context);
    if r.Ok? && !ts[i].End? {
      PathFromFails(ts, i, path, context);
      var part := PathPart(ts[i], ts[i + 1]);
      var path' := path.(parts := path.parts + [part]);
      PathFromStep(ts, i, path, context);
      PathFromReads(ts, i + 2, path', context);
      PartsStep(ts, i, r.value.cursor, path.parts, part, r.value.path.parts);
    }
  }

  /** One more segment in front: the read parts and the tokens they came from grow together. */
  lemma PartsStep(ts: seq<Token>, i: nat, cursor: nat, before: seq<PathPart>, part: PathPart, all: seq<PathPart>)
    requires i + 2 <= cursor <= |ts| && ts[i] == part.sep && ts[i + 1] == part.ident
    requires |before| + 1 <= |all| && all[..|before| + 1] == before + [part]
    requires ts[i + 2..cursor] == PartTokens(all[|before| + 1..])
    ensures all[..|before|] == before && ts[i..cursor] == PartTokens(all[|before|..])
  {
    assert all[..|before|] == all[..|before| + 1][..|before|];
    var rest := all[|before|..];
    assert rest[0] == part && rest[1..] == all[|before| + 1..];
    assert ts[i..cursor] == [ts[i], ts[i + 1]] + ts[i + 2..cursor];
  }

  // ---------------------------------------------------------------------
  // The cursor

  class TokenIter {
    var index: nat
    const tokens: seq<Token>

    ghost predicate Valid()
      reads this
    {
      |tokens| > 0 && tokens[|tokens| - 1].End? && index < |tokens|
    }

    /** `TokenIter::new`: the list must end with `End`. */
    constructor (tokens: seq<Token>)
      requires |tokens| > 0 && tokens[|tokens| - 1].End?
      ensures Valid() && this.tokens == tokens && index == 0
    {
      this.tokens := tokens;
      index := 0;
    }

    function Current(): (t: Token)
      reads this
      requires Valid()
      ensures t == tokens[index]
      ensures index == |tokens| - 1 ==> t.End?
    {
      tokens[index]
    }

    /**
     * `prev`: the token before the cursor. At the start the index
     * subtraction underflows, which panics.
     */
    function Prev(): (r: CompileResult<Option<Token>>)
      reads this
      requires Valid()
      ensures r.Err? <==> index == 0
      ensures r.Err? ==> r.err == Panic("attempt to subtract with overflow")
      ensures r.Ok? ==> r.value == Some(tokens[index - 1])
    {
      if index == 0 then Err(Panic("attempt to subtract with overflow")) else Ok(Some(tokens[index - 1]))
    }

    /** Returns the current token and moves past it unless it is `End`. */
    method Next() returns (t: Token)
      requires Valid()
      modifies this
      ensures Valid()
      ensures t == old(Current())
      ensures index == Step(tokens, old(index))
    {
      t := tokens[index];
      if !t.End? {
        index := index + 1;
      }
    }

    /**
     * `get_path`: no path unless the previous token is an identifier;
     * otherwise that identifier and the segments read by `PathFrom`, the
     * cursor left on the `End` that stopped it.
     */
    method GetPath(context: Option<string>) returns (r: CompileResult<Option<Path>>)
      requires Valid()
      modifies this
      ensures Valid()
      ensures old(index) == 0 ==> r == Err(Panic("attempt to subtract with overflow"))
      ensures old(index) > 0 && !tokens[old(index) - 1].Ident? ==> r == Ok(None) && index == old(index)
      ensures old(index) > 0 && tokens[old(index) - 1].Ident? ==>
        var spec := PathFrom(tokens, old(index), Path(tokens[old(index) - 1], []), context);
        (r.Ok? <==> spec.Ok?)
        && (r.Ok? ==> r.value == Some(spec.value.path) && index == spec.value.cursor)
        && (r.Err? ==> r.err == spec.err)
    {
      var prev :- Prev();
      var firstToken := prev.value;
      if !firstToken.Ident? {
        return Ok(None);
      }
      var first: IdentTok := firstToken;
      var path :- ReadParts(Path(first, []), context);
      return Ok(Some(path));
    }

    /** The segment loop of `get_path`, from the cursor, as `PathFrom` specifies. */
    method ReadParts(start: Path, context: Option<string>) returns (r: CompileResult<Path>)
      requires Valid()
      modifies this
      ensures Valid()
      ensures var spec := PathFrom(tokens, old(index), start, context);
        (r.Ok? <==> spec.Ok?)
        && (r.Ok? ==> r.value == spec.value.path && index == spec.value.cursor)
        && (r.Err? ==> r.err == spec.err)
    {
      var path := start;
      ghost var spec := PathFrom(tokens, index, start, context);
      while true
        invariant Valid() && old(index) <= index
        invariant spec == PathFrom(tokens, index, path, context)
        decreases |tokens| - index
      {
        var step :- ReadPart(path, context);
        if step.None? {
          break;
        }
        path := step.value;
      }
      return Ok(path);
    }

    /**
     * One turn of the segment loop: `None` on `End` (the cursor stays on
     * it), else the path extended by a separator and an identifier, with
     * the cursor past both; the errors are those of `expect_sep` and
     * `expect_ident`.
     */
    method ReadPart(path: Path, context: Option<string>) returns (r: CompileResult<Option<Path>>)
      requires Valid()
      modifies this
      ensures Valid() && old(index) <= index
      ensures r.Ok? && r.value.None? ==> tokens[index].End? && index == old(index)
      ensures r.Ok? && r.value.Some? ==>
        index == old(index) + 2 && PathFrom(tokens, old(index), path, context) == PathFrom(tokens, index, r.value.value, context)
      ensures r.Err? ==> PathFrom(tokens, old(index), path, context) == Err(r.err)
    {
      ghost var i := index;
      var token := Next();
      if token.End? {
        return Ok(None);
      }
      PathFromFails(tokens, i, path, context);
      var sep :- AltTokens.ExpectSep(token, context, None);
      var partToken := Next();
      var part :- AltTokens.ExpectIdent(partToken, context, None);
      PathFromStep(tokens, i, path, context);
      return Ok(Some(path.(parts := path.parts + [PathPart(sep, part)])));
    }
  }

  // ---------------------------------------------------------------------
  // Visiting

  /**
   * The tokens `iter_tokens` hands to its callback, from position `i`.
   * The callback is modelled by how many further `next` calls it makes,
   * given the token and the cursor position it is called with.
   */
  function Visits(ts: seq<Token>, i: nat, f: (Token, nat) -> nat): (r: seq<Token>)
    requires i < |ts| && ts[|ts| - 1].End?
    ensures |r| <= |ts| - 1 - i
    ensures forall k :: 0 <= k < |r| ==> !r[k].End?
    decreases |ts| - i
  {
    var t := ts[i];
    if t.End? then [] else [t] + Visits(ts, Advance(ts, i + 1, f(t, i + 1)), f)
  }

  /** A callback that never advances sees every token before the final `End`, once each, in order. */
  lemma {:induction false} VisitsEach(ts: seq<Token>, i: nat, f: (Token, nat) -> nat)
    requires EndTerminated(ts) && i < |ts|
    requires forall t, j :: f(t, j) == 0
    ensures Visits(ts, i, f) == ts[i..|ts| - 1]
    decreases |ts| - i
  {
    if !ts[i].End? {
      VisitsEach(ts, i + 1, f);
      assert ts[i..|ts| - 1] == [ts[i]] + ts[i + 1..|ts| - 1];
    }
  }

  /**
   * `TokenList::iter_tokens`: the callback is applied to each token reached
   * before `End`, its own `next` calls moving the shared cursor on.
   */
  method IterTokens(tokens: seq<Token>, f: (Token, nat) -> nat) returns (visited: seq<Token>)
    requires |tokens| > 0 && tokens[|tokens| - 1].End?
    ensures visited == Visits(tokens, 0, f)
  {
    var iter := new TokenIter(tokens);
    visited := [];
    ghost var c := 0;
    var next := iter.Next();
    while !next.End?
      invariant iter.Valid() && iter.tokens == tokens && c < |tokens|
      invariant next == tokens[c] && iter.index == Step(tokens, c)
      invariant visited + Visits(tokens, c, f) == Visits(tokens, 0, f)
      decreases |tokens| - c
    {
      visited := visited + [next];
      iter.index := Advance(tokens, iter.index, f(next, iter.index));
      assert visited + Visits(tokens, iter.index, f) == Visits(tokens, 0, f);
      c := iter.index;
      next := iter.Next();
    }
    assert visited + [] == visited;
  }

  // ---------------------------------------------------------------------
  // Rewriting in place

  /** `f` never makes a token larger, so rewriting inside groups terminates. */
  ghost predicate Shrinking(f: Token -> Token) {
    forall t :: Size(f(t)) <= Size(t)
  }

  /**
   * What `traverse_tokens` leaves at one position: `f` applied to the
   * token, then, when the result is a group, its own tokens rewritten.
   */
  function TraverseOne(t: Token, f: Token -> Token): (r: Token)
    requires Shrinking(f)
    ensures Size(r) <= Size(t)
    decreases Size(t), 0
  {
    var u := f(t);
    if u.Group? then Group(u.delimiter, Traversed(u.tokens, f), u.scope) else u
  }

  /** Every position of `ts` rewritten, in order. */
  function Traversed(ts: seq<Token>, f: Token -> Token): (r: seq<Token>)
    requires Shrinking(f)
    ensures |r| == |ts|
    ensures SizeOf(r) <= SizeOf(ts)
    decreases SizeOf(ts), 1
  {
    if ts == [] then []
    else Traversed(ts[..|ts| - 1], f) + [TraverseOne(ts[|ts| - 1], f)]
  }

  /** Rewriting with the identity changes nothing, at any depth. */
  lemma {:induction false} TraversedIdentity(ts: seq<Token>)
    ensures Traversed(ts, t => t) == ts
    decreases SizeOf(ts), 1
  {
    if ts != [] {
      TraversedIdentity(ts[..|ts| - 1]);
      TraverseOneIdentity(ts[|ts| - 1]);
      assert ts[..|ts| - 1] + [ts[|ts| - 1]] == ts;
    }
  }

  lemma {:induction false} TraverseOneIdentity(t: Token)
    ensures TraverseOne(t, t => t) == t
    decreases Size(t), 0
  {
    if t.Group? {
      TraversedIdentity(t.tokens);
    }
  }

  /** A token's size is part of its list's size. */
  lemma {:induction false} SizeOfHasElement(ts: seq<Token>, i: nat)
    requires i < |ts|
    ensures Size(ts[i]) <= SizeOf(ts)
    decreases |ts|
  {
    if i < |ts| - 1 {
      SizeOfHasElement(ts[..|ts| - 1], i);
    }
  }

  lemma TraversedSnoc(ts: seq<Token>, i: nat, f: Token -> Token)
    requires i < |ts| && Shrinking(f)
    ensures Traversed(ts[..i + 1], f) == Traversed(ts[..i], f) + [TraverseOne(ts[i], f)]
  {
    assert ts[..i + 1][..i] == ts[..i];
  }

  /**
   * `traverse_tokens`: each position in turn gets `f`, and a resulting
   * group has its own tokens traversed the same way before moving on.
   */
  method TraverseTokens(a: array<Token>, f: Token -> Token)
    requires Shrinking(f)
    modifies a
    ensures a[..] == Traversed(old(a[..]), f)
    decreases SizeOf(a[..]), 1
  {
    ghost var before := a[..];
    var i := 0;
    while i < a.Length
      invariant 0 <= i <= a.Length
      invariant a[..i] == Traversed(before[..i], f)
      invariant a[i..] == before[i..]
    {
      assert a[i] == before[i];
      SizeOfHasElement(before, i);
      var t := TraverseToken(a[i], f);
      ghost var done := a[..i];
      ghost var rest := a[i + 1..];
      a[i] := t;
      assert a[..i] == done && a[i + 1..] == rest;
      TraversedSnoc(before, i, f);
      assert a[..i + 1] == done + [t];
      assert before[i + 1..] == before[i..][1..];
      i := i + 1;
    }
    assert a[..] == a[..a.Length] && before == before[..a.Length];
  }

  /**
   * One step of `traverse_tokens`: `f` on the token, then, for a group, its
   * tokens copied into a vector of their own and traversed in place.
   */
  method TraverseToken(t0: Token, f: Token -> Token) returns (t: Token)
    requires Shrinking(f)
    ensures t == TraverseOne(t0, f)
    decreases Size(t0), 0
  {
    t := f(t0);
    if t.Group? {
      var inner := new Token[|t.tokens|](k requires 0 <= k < |t.tokens| => t.tokens[k]);
      assert inner[..] == t.tokens;
      TraverseTokens(inner, f);
      t := Group(t.delimiter, inner[..], t.scope);
    }
  }
}
