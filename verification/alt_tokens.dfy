/**
 * The alternate token API: the same token shapes, but failed expectations
 * report "Invalid token" with a pointer naming what was expected and the
 * token's debug rendering (`Ident("x")`, `Sep(';')`, `Group<Parentheses>(...)`),
 * and the caller supplies an optional context line.
 */
module AltTokens {
  import opened Wrappers
  import opened Decimal
  import opened Errors
  import opened Tokens

  // ---------------------------------------------------------------------
  // Debug renderings

  /**
   * One character as Rust's debug escaping writes it: `\0`, `\t`, `\r`,
   * `\n` and `\\` always, and the quote that delimits the literal (`"` in
   * a string, `'` in a character).
   */
  function EscapeChar(c: char, inString: bool): (r: string)
    ensures 1 <= |r| <= 2
    ensures |r| == 2 <==> r[0] == '\\'
    ensures |r| == 1 ==> r == [c]
  {
    match c
    case '\0' => "\\0"
    case '\t' => "\\t"
    case '\r' => "\\r"
    case '\n' => "\\n"
    case '\\' => "\\\\"
    case '"' => if inString then "\\\"" else "\""
    case '\'' => if inString then "'" else "\\'"
    case _ => [c]
  }

  /** A string's characters, each escaped. */
  function Escaped(s: string, inString: bool): (r: string)
    ensures |r| >= |s|
    decreases |s|
  {
    if s == [] then [] else EscapeChar(s[0], inString) + Escaped(s[1..], inString)
  }

  /** The character an escape letter stands for. */
  function EscapeLetter(c: char): char {
    match c
    case '0' => '\0'
    case 't' => '\t'
    case 'r' => '\r'
    case 'n' => '\n'
    case _ => c
  }

  /** Reading escapes back: a backslash and the letter after it stand for one character. */
  function Unescape(s: string): string
    decreases |s|
  {
    if s == [] then []
    else if s[0] == '\\' && |s| >= 2 then [EscapeLetter(s[1])] + Unescape(s[2..])
    else [s[0]] + Unescape(s[1..])
  }

  /** Escaping loses nothing: reading the escapes back gives the original text. */
  lemma {:induction false} UnescapeEscaped(s: string, inString: bool)
    ensures Unescape(Escaped(s, inString)) == s
    decreases |s|
  {
    if s != [] {
      var e := EscapeChar(s[0], inString);
      var rest := Escaped(s[1..], inString);
      UnescapeEscaped(s[1..], inString);
      if |e| == 2 {
        assert (e + rest)[2..] == rest;
        assert EscapeLetter(e[1]) == s[0];
      } else {
        assert (e + rest)[1..] == rest;
      }
      assert [s[0]] + s[1..] == s;
    }
  }

  /** `{:?}` of a string: quoted, with its characters escaped. */
  function DebugString(s: string): string {
    "\"" + Escaped(s, true) + "\""
  }

  /** `{:?}` of a character: single-quoted, escaped. */
  function DebugChar(c: char): string {
    "'" + EscapeChar(c, false) + "'"
  }

  /** The derived debug name of a delimiter. */
  function DelimName(d: Delimiter): string {
    match d
    case Parentheses => "Parentheses"
    case Brackets => "Brackets"
    case CurlyBrackets => "CurlyBrackets"
    case AngledBrackets => "AngledBrackets"
  }

  /**
   * A token's debug rendering as error pointers write it (`{:#1?}`, a width
   * given): the variant name and its payload in parentheses, a group
   * showing only its delimiter and `...` for its contents.
   */
  function DebugFmt(t: Token): (r: string)
    ensures t.Ident? ==> r == "Ident(" + DebugString(t.value) + ")"
    ensures t.Str? ==> r == "Str(" + DebugString(t.value) + ")"
    ensures t.Symbol? ==> r == "Symbol(" + DebugString(t.value) + ")"
  {
    match t
    case Ident(value, _) => "Ident(" + DebugString(value) + ")"
    case Str(value, _) => "Str(" + DebugString(value) + ")"
    case Int(number, _) => "Int(" + IntToString(number as int) + ")"
    case Sep(ch, _) => "Sep(" + DebugChar(ch) + ")"
    case Symbol(value, _) => "Symbol(" + DebugString(value) + ")"
    case End(_) => "End()"
    case Group(delimiter, _, _) => "Group<" + DelimName(delimiter) + ">(...)"
  }

  /**
   * The value of an identifier, string or symbol can be read back from
   * its rendering: strip the variant name, parenthesis and quotes, then
   * undo escaping.
   */
  lemma DebugFmtRecoversValue(t: Token)
    requires t.Ident? || t.Str? || t.Symbol?
    ensures var r := DebugFmt(t);
      var head := if t.Ident? then "Ident(" else if t.Str? then "Str(" else "Symbol(";
      |r| >= |head| + 3 && r[..|head|] == head && r[|head|] == '"'
      && r[|r| - 2] == '"' && r[|r| - 1] == ')'
      && Unescape(r[|head| + 1..|r| - 2]) == t.value
  {
    var head := if t.Ident? then "Ident(" else if t.Str? then "Str(" else "Symbol(";
    assert DebugFmt(t) == head + DebugString(t.value) + ")";
    WrappedRecovers(head, t.value);
  }

  /** The shared shape of the three renderings: `head"…")` around the escaped value. */
  lemma WrappedRecovers(head: string, v: string)
    ensures var r := head + DebugString(v) + ")";
      |r| >= |head| + 3 && r[..|head|] == head && r[|head|] == '"'
      && r[|r| - 2] == '"' && r[|r| - 1] == ')'
      && Unescape(r[|head| + 1..|r| - 2]) == v
  {
    var body := Escaped(v, true);
    var r := head + DebugString(v) + ")";
    assert r == head + ("\"" + body + "\")");
    assert r[|head| + 1..|r| - 2] == body;
    UnescapeEscaped(v, true);
  }

  /** A character can be read back from its rendering. */
  lemma DebugCharRecovers(c: char)
    ensures var r := DebugChar(c);
      |r| >= 3 && r[0] == '\'' && r[|r| - 1] == '\'' && Unescape(r[1..|r| - 1]) == [c]
  {
    var e := EscapeChar(c, false);
    assert DebugChar(c)[1..|DebugChar(c)| - 1] == e;
    assert Escaped([c], false) == e + [];
    UnescapeEscaped([c], false);
    assert e + [] == e;
  }

  // ---------------------------------------------------------------------
  // Expectations

  /** `as_non_end`: the token unless it is `End`. */
  function AsNonEnd(t: Token): (r: Option<Token>)
    ensures r.Some? <==> !t.End?
    ensures r.Some? ==> r.value == t
  {
    if t.End? then None else Some(t)
  }

  /**
   * `invalid`: an error on the token's scope, cause "Invalid token", the
   * pointer naming what was expected and what was found.
   */
  function Invalid<T>(t: Token, expected: string, context: Option<string>, help: Option<Help>): (r: CompileResult<T>)
    ensures r.Err? && r.err.Error? && r.err.scope == t.scope
    ensures r.err.info.cause == "Invalid token" && r.err.info.context == context && r.err.info.help == help
    ensures r.err.info.pointer == "expected " + expected + ", found " + DebugFmt(t)
  {
    Err(Error(t.scope, ErrorInfo("Invalid token", "expected " + expected + ", found " + DebugFmt(t), context, help)))
  }

  function ExpectNonEnd(t: Token, context: Option<string>, help: Option<Help>): (r: CompileResult<Token>)
    ensures r.Ok? <==> !t.End?
    ensures r.Ok? ==> r.value == t
    ensures r.Err? ==> r == Invalid(t, "non End()", context, help)
  {
    if t.End? then Invalid(t, "non End()", context, help) else Ok(t)
  }

  function ExpectIdent(t: Token, context: Option<string>, help: Option<Help>): (r: CompileResult<IdentTok>)
    ensures r.Ok? <==> t.Ident?
    ensures r.Ok? ==> r.value == t
    ensures r.Err? ==> r == Invalid(t, "Ident()", context, help)
  {
    if t.Ident? then var e: IdentTok := t; Ok(e) else Invalid(t, "Ident()", context, help)
  }

  function ExpectString(t: Token, context: Option<string>, help: Option<Help>): (r: CompileResult<StrTok>)
    ensures r.Ok? <==> t.Str?
    ensures r.Ok? ==> r.value == t
    ensures r.Err? ==> r == Invalid(t, "Str()", context, help)
  {
    if t.Str? then var e: StrTok := t; Ok(e) else Invalid(t, "Str()", context, help)
  }

  function ExpectInt(t: Token, context: Option<string>, help: Option<Help>): (r: CompileResult<IntTok>)
    ensures r.Ok? <==> t.Int?
    ensures r.Ok? ==> r.value == t
    ensures r.Err? ==> r == Invalid(t, "int", context, help)
  {
    if t.Int? then var e: IntTok := t; Ok(e) else Invalid(t, "int", context, help)
  }

  function ExpectSep(t: Token, context: Option<string>, help: Option<Help>): (r: CompileResult<SepTok>)
    ensures r.Ok? <==> t.Sep?
    ensures r.Ok? ==> r.value == t
    ensures r.Err? ==> r == Invalid(t, "Sep()", context, help)
  {
    if t.Sep? then var e: SepTok := t; Ok(e) else Invalid(t, "Sep()", context, help)
  }

  function ExpectSymbol(t: Token, context: Option<string>, help: Option<Help>): (r: CompileResult<SymbolTok>)
    ensures r.Ok? <==> t.Symbol?
    ensures r.Ok? ==> r.value == t
    ensures r.Err? ==> r == Invalid(t, "Symbol()", context, help)
  {
    if t.Symbol? then var e: SymbolTok := t; Ok(e) else Invalid(t, "Symbol()", context, help)
  }

  function ExpectEnd(t: Token, context: Option<string>, help: Option<Help>): (r: CompileResult<EndTok>)
    ensures r.Ok? <==> t.End?
    ensures r.Ok? ==> r.value == t
    ensures r.Err? ==> r == Invalid(t, "End()", context, help)
  {
    if t.End? then var e: EndTok := t; Ok(e) else Invalid(t, "End()", context, help)
  }

  function ExpectGroup(t: Token, context: Option<string>, help: Option<Help>): (r: CompileResult<GroupTok>)
    ensures r.Ok? <==> t.Group?
    ensures r.Ok? ==> r.value == t
    ensures r.Err? ==> r == Invalid(t, "Group", context, help)
  {
    if t.Group? then var e: GroupTok := t; Ok(e) else Invalid(t, "Group", context, help)
  }

  /** `expect_ident_w`: an identifier with exactly this text. */
  function ExpectIdentW(t: Token, v: string, context: Option<string>, help: Option<Help>): (r: CompileResult<IdentTok>)
    ensures r.Ok? <==> t.Ident? && t.value == v
    ensures r.Ok? ==> r.value == t
    ensures r.Err? ==> r == Invalid(t, "Word(\"" + v + "\")", context, help)
  {
    if t.Ident? && t.value == v then var e: IdentTok := t; Ok(e)
    else Invalid(t, "Word(\"" + v + "\")", context, help)
  }

  /** `expect_sep_w`: this separator character. */
  function ExpectSepW(t: Token, c: char, context: Option<string>, help: Option<Help>): (r: CompileResult<SepTok>)
    ensures r.Ok? <==> t.Sep? && t.ch == c
    ensures r.Ok? ==> r.value == t
    ensures r.Err? ==> r == Invalid(t, "Sep('" + [c] + "')", context, help)
  {
    if t.Sep? && t.ch == c then var e: SepTok := t; Ok(e)
    else Invalid(t, "Sep('" + [c] + "')", context, help)
  }

  /** `expect_group_w`: a group with this delimiter. */
  function ExpectGroupW(t: Token, d: Delimiter, context: Option<string>, help: Option<Help>): (r: CompileResult<GroupTok>)
    ensures r.Ok? <==> t.Group? && t.delimiter == d
    ensures r.Ok? ==> r.value == t
    ensures r.Err? ==> r == Invalid(t, "Group<" + DelimName(d) + ">", context, help)
  {
    if t.Group? && t.delimiter == d then var e: GroupTok := t; Ok(e)
    else Invalid(t, "Group<" + DelimName(d) + ">", context, help)
  }

  /**
   * A value-checking expectation accepts exactly what the matching
   * value-free accessor of the token API accepts.
   */
  lemma ExpectWAgreesWithAs(t: Token, v: string, c: char, d: Delimiter, context: Option<string>, help: Option<Help>)
    ensures ExpectIdentW(t, v, context, help).Ok? <==> t.AsIdentW(v).Some?
    ensures ExpectSepW(t, c, context, help).Ok? <==> t.AsSepW(c).Some?
    ensures ExpectGroupW(t, d, context, help).Ok? <==> t.AsGroup().Some? && t.delimiter == d
  {
    ExpectIdentWAgrees(t, v, context, help);
    ExpectSepWAgrees(t, c, context, help);
    ExpectGroupWAgrees(t, d, context, help);
  }

  lemma ExpectIdentWAgrees(t: Token, v: string, context: Option<string>, help: Option<Help>)
    ensures ExpectIdentW(t, v, context, help).Ok? <==> t.AsIdentW(v).Some?
  {
  }

  lemma ExpectSepWAgrees(t: Token, c: char, context: Option<string>, help: Option<Help>)
    ensures ExpectSepW(t, c, context, help).Ok? <==> t.AsSepW(c).Some?
  {
  }

  lemma ExpectGroupWAgrees(t: Token, d: Delimiter, context: Option<string>, help: Option<Help>)
    ensures ExpectGroupW(t, d, context, help).Ok? <==> t.AsGroup().Some? && t.delimiter == d
  {
  }
}
