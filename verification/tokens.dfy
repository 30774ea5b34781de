/**
 * Tokens of the compiler front end: the seven token kinds, each carrying
 * its source scope, the delimiter kinds of groups, the typed accessors and
 * expectations the parser uses, and the human-readable rendering of a
 * token that error causes quote.
 */
module Tokens {
  import opened Wrappers
  import opened Decimal
  import opened Files
  import opened Spans
  import opened Errors

  /** The four bracket kinds a group can be delimited by. */
  datatype Delimiter = Parentheses | Brackets | CurlyBrackets | AngledBrackets
  {
    /** The bracket that opens a group of this kind. */
    function Opening(): (c: char)
      ensures c in "([{<"
    {
      match this
      case Parentheses => '('
      case Brackets => '['
      case CurlyBrackets => '{'
      case AngledBrackets => '<'
    }

    /** The bracket that closes a group of this kind, the partner of `Opening`. */
    function Closing(): (c: char)
      ensures c in ")]}>"
      ensures [Opening(), c] in ["()", "[]", "{}", "<>"]
    {
      match this
      case Parentheses => ')'
      case Brackets => ']'
      case CurlyBrackets => '}'
      case AngledBrackets => '>'
    }
  }

  /**
   * The eight bracket characters are pairwise distinct: each names exactly
   * one delimiter kind and one side.
   */
  lemma DelimiterCharsDistinct(d: Delimiter, e: Delimiter)
    ensures d.Opening() == e.Opening() <==> d == e
    ensures d.Closing() == e.Closing() <==> d == e
    ensures d.Opening() != e.Closing()
  {
  }

  /** A 32-bit signed integer, the payload type of integer literals. */
  newtype I32 = x: int | -0x8000_0000 <= x < 0x8000_0000

  /**
   * A token. Every kind carries the scope of the characters it was lexed
   * from, so `t.scope` is the source's `Token::scope`. A group holds the
   * tokens between its delimiters, followed by an `End`.
   */
  datatype Token =
    | Ident(value: string, scope: SrcScope)
    | Str(value: string, scope: SrcScope)
    | Int(number: I32, scope: SrcScope)
    | Sep(ch: char, scope: SrcScope)
    | Symbol(value: string, scope: SrcScope)
    | End(scope: SrcScope)
    | Group(delimiter: Delimiter, tokens: seq<Token>, scope: SrcScope)
  {
    /** `as_ident`: the identifier payload, if this is one. */
    function AsIdent(): (r: Option<IdentTok>)
      ensures r.Some? <==> Ident?
      ensures r.Some? ==> r.value == this
    {
      if Ident? then Some(this) else None
    }

    function AsString(): (r: Option<StrTok>)
      ensures r.Some? <==> Str?
      ensures r.Some? ==> r.value == this
    {
      if Str? then Some(this) else None
    }

    function AsInt(): (r: Option<IntTok>)
      ensures r.Some? <==> Int?
      ensures r.Some? ==> r.value == this
    {
      if Int? then Some(this) else None
    }

    function AsSep(): (r: Option<SepTok>)
      ensures r.Some? <==> Sep?
      ensures r.Some? ==> r.value == this
    {
      if Sep? then Some(this) else None
    }

    function AsSymbol(): (r: Option<SymbolTok>)
      ensures r.Some? <==> Symbol?
      ensures r.Some? ==> r.value == this
    {
      if Symbol? then Some(this) else None
    }

    function AsEnd(): (r: Option<EndTok>)
      ensures r.Some? <==> End?
      ensures r.Some? ==> r.value == this
    {
      if End? then Some(this) else None
    }

    function AsGroup(): (r: Option<GroupTok>)
      ensures r.Some? <==> Group?
      ensures r.Some? ==> r.value == this
    {
      if Group? then Some(this) else None
    }

    /** `as_symbol_w`: the symbol payload, if this is the symbol `v`. */
    function AsSymbolW(v: string): (r: Option<SymbolTok>)
      ensures r.Some? <==> Symbol? && value == v
      ensures r.Some? ==> r.value == this
    {
      match this
      case Symbol(value, _) => if value == v then Some(this) else None
      case _ => None
    }

    /** `as_sep_w`: the separator payload, if this is the separator `c`. */
    function AsSepW(c: char): (r: Option<SepTok>)
      ensures r.Some? <==> Sep? && ch == c
      ensures r.Some? ==> r.value == this
    {
      match this
      case Sep(ch, _) => if ch == c then Some(this) else None
      case _ => None
    }

    /** `as_ident_w`: the identifier payload, if this is the word `v`. */
    function AsIdentW(v: string): (r: Option<IdentTok>)
      ensures r.Some? <==> Ident? && value == v
      ensures r.Some? ==> r.value == this
    {
      match this
      case Ident(value, _) => if value == v then Some(this) else None
      case _ => None
    }

    /** `expect_non_end`: this token unless it is `End`. */
    function ExpectNonEnd(more: string, help: Option<Help>): (r: CompileResult<Token>)
      ensures r.Ok? <==> !End?
      ensures r.Ok? ==> r.value == this
      ensures r.Err? ==> r == InvalidToken(this, more, help)
    {
      if End? then InvalidToken(this, more, help) else Ok(this)
    }

    function ExpectIdent(more: string, help: Option<Help>): (r: CompileResult<IdentTok>)
      ensures r.Ok? <==> Ident?
      ensures r.Ok? ==> r.value == this
      ensures r.Err? ==> r == InvalidToken(this, more, help)
    {
      if Ident? then var t: IdentTok := this; Ok(t) else InvalidToken(this, more, help)
    }

    function ExpectString(more: string, help: Option<Help>): (r: CompileResult<StrTok>)
      ensures r.Ok? <==> Str?
      ensures r.Ok? ==> r.value == this
      ensures r.Err? ==> r == InvalidToken(this, more, help)
    {
      if Str? then var t: StrTok := this; Ok(t) else InvalidToken(this, more, help)
    }

    function ExpectInt(more: string, help: Option<Help>): (r: CompileResult<IntTok>)
      ensures r.Ok? <==> Int?
      ensures r.Ok? ==> r.value == this
      ensures r.Err? ==> r == InvalidToken(this, more, help)
    {
      if Int? then var t: IntTok := this; Ok(t) else InvalidToken(this, more, help)
    }

    function ExpectSep(more: string, help: Option<Help>): (r: CompileResult<SepTok>)
      ensures r.Ok? <==> Sep?
      ensures r.Ok? ==> r.value == this
      ensures r.Err? ==> r == InvalidToken(this, more, help)
    {
      if Sep? then var t: SepTok := this; Ok(t) else InvalidToken(this, more, help)
    }

    function ExpectSymbol(more: string, help: Option<Help>): (r: CompileResult<SymbolTok>)
      ensures r.Ok? <==> Symbol?
      ensures r.Ok? ==> r.value == this
      ensures r.Err? ==> r == InvalidToken(this, more, help)
    {
      if Symbol? then var t: SymbolTok := this; Ok(t) else InvalidToken(this, more, help)
    }

    function ExpectEnd(more: string, help: Option<Help>): (r: CompileResult<EndTok>)
      ensures r.Ok? <==> End?
      ensures r.Ok? ==> r.value == this
      ensures r.Err? ==> r == InvalidToken(this, more, help)
    {
      if End? then var t: EndTok := this; Ok(t) else InvalidToken(this, more, help)
    }

    function ExpectGroup(more: string, help: Option<Help>): (r: CompileResult<GroupTok>)
      ensures r.Ok? <==> Group?
      ensures r.Ok? ==> r.value == this
      ensures r.Err? ==> r == InvalidToken(this, more, help)
    {
      if Group? then var t: GroupTok := this; Ok(t) else InvalidToken(this, more, help)
    }

    /** `expect_ident_w`: this token if it is the word `v`. */
    function ExpectIdentW(v: string, more: string, help: Option<Help>): (r: CompileResult<IdentTok>)
      ensures r.Ok? <==> AsIdentW(v).Some?
      ensures r.Ok? ==> r.value == AsIdentW(v).value
      ensures r.Err? ==> r == InvalidToken(this, more, help)
    {
      match this
      case Ident(value, _) => if value == v then var t: IdentTok := this; Ok(t) else InvalidToken(this, more, help)
      case _ => InvalidToken(this, more, help)
    }

    /** `expect_sep_w`: this token if it is the separator `c`. */
    function ExpectSepW(c: char, more: string, help: Option<Help>): (r: CompileResult<SepTok>)
      ensures r.Ok? <==> AsSepW(c).Some?
      ensures r.Ok? ==> r.value == AsSepW(c).value
      ensures r.Err? ==> r == InvalidToken(this, more, help)
    {
      match this
      case Sep(ch, _) => if ch == c then var t: SepTok := this; Ok(t) else InvalidToken(this, more, help)
      case _ => InvalidToken(this, more, help)
    }

    /** `expect_group_w`: this token if it is a group delimited by `d`. */
    function ExpectGroupW(d: Delimiter, more: string, help: Option<Help>): (r: CompileResult<GroupTok>)
      ensures r.Ok? <==> Group? && delimiter == d
      ensures r.Ok? ==> r.value == this
      ensures r.Err? ==> r == InvalidToken(this, more, help)
    {
      match this
      case Group(delimiter, _, _) => if delimiter == d then var t: GroupTok := this; Ok(t) else InvalidToken(this, more, help)
      case _ => InvalidToken(this, more, help)
    }
  }

  /** The payload structs of the source, as the tokens of one kind. */
  type IdentTok = t: Token | t.Ident? witness Ident("", SrcScope(0, 0, FileRef(0)))
  type StrTok = t: Token | t.Str? witness Str("", SrcScope(0, 0, FileRef(0)))
  type IntTok = t: Token | t.Int? witness Int(0, SrcScope(0, 0, FileRef(0)))
  type SepTok = t: Token | t.Sep? witness Sep(',', SrcScope(0, 0, FileRef(0)))
  type SymbolTok = t: Token | t.Symbol? witness Symbol("", SrcScope(0, 0, FileRef(0)))
  type EndTok = t: Token | t.End? witness End(SrcScope(0, 0, FileRef(0)))
  type GroupTok = t: Token | t.Group? witness Group(Parentheses, [], SrcScope(0, 0, FileRef(0)))

  /**
   * The error every failed expectation returns: anchored at the token's
   * own scope, its cause quoting the token's rendering.
   */
  function InvalidToken<T>(t: Token, more: string, help: Option<Help>): (r: CompileResult<T>)
    ensures r.Err? && r.err.Error? && r.err.scope == t.scope
    ensures r.err.info == ErrorInfo("invalid token: " + Display(t), more, None, help)
  {
    Err(Error(t.scope, ErrorInfo("invalid token: " + Display(t), more, None, help)))
  }

  /**
   * The rendering used in error causes: words, separators and symbols in
   * backquotes, strings in double quotes, integers in decimal, `end`, and
   * a group as its brackets around its tokens, each followed by a space.
   */
  function Display(t: Token): (r: string)
    ensures |r| >= 1
    decreases t
  {
    match t
    case Ident(value, _) => "`" + value + "`"
    case Str(value, _) => "\"" + value + "\""
    case Int(number, _) => IntToString(number as int)
    case Sep(ch, _) => "`" + [ch] + "`"
    case Symbol(value, _) => "`" + value + "`"
    case End(_) => "end"
    case Group(delimiter, tokens, _) => [delimiter.Opening()] + DisplayEach(tokens, " ") + [delimiter.Closing()]
  }

  /** Every token's rendering, each followed by `sep` (`display_tokens`). */
  function DisplayEach(ts: seq<Token>, sep: string): string
    decreases ts
  {
    if ts == [] then "" else DisplayEach(ts[..|ts| - 1], sep) + Display(ts[|ts| - 1]) + sep
  }

  /**
   * A rendering is never empty and its first character tells the kind:
   * a backquote for words, separators and symbols, a double quote for
   * strings, a digit or '-' for integers (the decimal value), and the
   * group's own opening bracket, matched by its closing one at the end.
   */
  lemma DisplayShape(t: Token)
    ensures var r := Display(t);
      |r| >= 1
      && (t.Ident? || t.Sep? || t.Symbol? ==> |r| >= 2 && r[0] == '`' && r[|r| - 1] == '`')
      && (t.Str? ==> |r| >= 2 && r[0] == '"' && r[|r| - 1] == '"')
      && (t.Group? ==> |r| >= 2 && r[0] == t.delimiter.Opening() && r[|r| - 1] == t.delimiter.Closing())
    ensures t.Int? ==> var r := Display(t);
      (r[0] == '-' <==> t.number < 0)
      && DigitsValue(if t.number < 0 then r[1..] else r) == (if t.number < 0 then -(t.number as int) else t.number as int)
  {
  }

  /** The rendering is empty only for no tokens, and otherwise ends with the separator. */
  lemma DisplayEachShape(ts: seq<Token>, sep: string)
    ensures DisplayEach(ts, sep) == [] <==> ts == []
    ensures ts != [] ==> var r := DisplayEach(ts, sep); |r| >= |sep| && r[|r| - |sep|..] == sep
  {
    if ts != [] {
      DisplayShape(ts[|ts| - 1]);
    }
  }

  /** Rendering a concatenation renders the parts one after the other. */
  lemma {:induction false} DisplayEachAppend(a: seq<Token>, b: seq<Token>, sep: string)
    ensures DisplayEach(a + b, sep) == DisplayEach(a, sep) + DisplayEach(b, sep)
    decreases |b|
  {
    if b == [] {
      assert a + b == a;
    } else {
      var b' := b[..|b| - 1];
      var last := Display(b[|b| - 1]) + sep;
      assert (a + b)[..|a + b| - 1] == a + b' && (a + b)[|a + b| - 1] == b[|b| - 1];
      assert DisplayEach(a + b, sep) == DisplayEach(a + b', sep) + last;
      assert DisplayEach(b, sep) == DisplayEach(b', sep) + last;
      DisplayEachAppend(a, b', sep);
    }
  }

  /**
   * `Group::display`: the opening bracket, each inner token's rendering
   * followed by one space, then the closing bracket, built in a loop.
   */
  method GroupDisplay(g: GroupTok) returns (s: string)
    ensures s == Display(g)
    ensures |s| >= 2 && s[0] == g.delimiter.Opening() && s[|s| - 1] == g.delimiter.Closing()
  {
    s := [g.delimiter.Opening()];
    var i := 0;
    while i < |g.tokens|
      invariant i <= |g.tokens|
      invariant s == [g.delimiter.Opening()] + DisplayEach(g.tokens[..i], " ")
    {
      assert g.tokens[..i + 1][..i] == g.tokens[..i];
      s := s + Display(g.tokens[i]);
      s := s + " ";
      i := i + 1;
    }
    assert g.tokens[..i] == g.tokens;
    s := s + [g.delimiter.Closing()];
  }

  /** The tokens as a whole: how many, counting group contents. */
  function Size(t: Token): (n: nat)
    ensures n >= 1
    decreases t
  {
    match t
    case Group(_, tokens, _) => 1 + SizeOf(tokens)
    case _ => 1
  }

  function SizeOf(ts: seq<Token>): nat
    decreases ts
  {
    if ts == [] then 0 else SizeOf(ts[..|ts| - 1]) + Size(ts[|ts| - 1])
  }

  /** A token list as the lexer produces it: non-empty, `End` last and nowhere else. */
  predicate EndTerminated(ts: seq<Token>) {
    |ts| > 0 && ts[|ts| - 1].End? && forall k :: 0 <= k < |ts| - 1 ==> !ts[k].End?
  }

  /** End-terminated at every level of group nesting. */
  predicate WellFormed(ts: seq<Token>)
    decreases ts
  {
    EndTerminated(ts) && forall k :: 0 <= k < |ts| ==> ts[k].Group? ==> WellFormed(ts[k].tokens)
  }
}
