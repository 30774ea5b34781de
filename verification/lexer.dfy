/**
 * The character-level lexer. It turns the characters of one file into
 * tokens, nesting the tokens between matched brackets into `Group`s whose
 * own lists end with an `End` at the closing bracket, and ends the whole
 * list with an `End` at the last character.
 *
 * The specification functions `LexOne` and `LexSeq` state what one call
 * of `next` and one run of the lexing loop produce; the `Lexer` class
 * advances its index step by step as the source does and is proved
 * against them.
 */
module Lexing {
  import opened Wrappers
  import opened Decimal
  import opened Files
  import opened Spans
  import opened Errors
  import opened Tokens

  // ---------------------------------------------------------------------
  // Character classes

  /** Unicode White_Space, the set `char::is_whitespace` tests. */
  predicate IsWhitespace(c: char) {
    c == ' ' || ('\t' <= c <= '\r') || c == '\U{85}' || c == '\U{A0}' || c == '\U{1680}'
    || ('\U{2000}' <= c <= '\U{200A}') || c == '\U{2028}' || c == '\U{2029}'
    || c == '\U{202F}' || c == '\U{205F}' || c == '\U{3000}'
  }

  /** Letters; only the ASCII ones are modelled. */
  predicate IsAlphabetic(c: char) {
    ('a' <= c <= 'z') || ('A' <= c <= 'Z')
  }

  predicate IsSep(c: char) {
    c == ',' || c == ':' || c == '@' || c == ';' || c == '|'
  }

  predicate IsSymbol(c: char) {
    c == '+' || c == '-' || c == '*' || c == '/' || c == '%' || c == '=' || c == '.' || c == '>' || c == '<'
  }

  predicate IsDelimiter(c: char) {
    c == '(' || c == ')' || c == '{' || c == '}' || c == '[' || c == ']' || c == '<' || c == '>'
  }

  /** The group kind an opening bracket starts. */
  function DelimiterOf(c: char): (d: Option<Delimiter>)
    ensures d.Some? <==> c == '(' || c == '{' || c == '[' || c == '<'
  {
    match c
    case '(' => Some(Parentheses)
    case '{' => Some(CurlyBrackets)
    case '[' => Some(Brackets)
    case '<' => Some(AngledBrackets)
    case _ => None
  }

  /** `delimiter` inverts `Delimiter::opening`. */
  lemma DelimiterOfOpening(c: char, d: Delimiter)
    ensures DelimiterOf(c) == Some(d) <==> c == d.Opening()
  {
  }

  predicate StartsIdent(c: char) {
    IsAlphabetic(c) || c == '_' || c == '$'
  }

  predicate InIdent(c: char) {
    IsAlphabetic(c) || c == '_' || IsDigit(c)
  }

  /** The characters that end an integer literal. */
  predicate IsIdentSep(c: char) {
    IsWhitespace(c) || IsSep(c) || IsSymbol(c) || IsDelimiter(c)
  }

  /** The characters an integer literal runs over: any that does not end one. */
  predicate InIntLiteral(c: char) {
    !IsIdentSep(c)
  }

  /**
   * How the classes divide the characters: `<` and `>` are the only
   * characters both a symbol and a bracket; a separator belongs to no other
   * class; no character both starts an identifier and is whitespace, a
   * separator, a symbol or a bracket; and every identifier character
   * continues an integer literal, so `12ab` is one (invalid) literal.
   */
  lemma CharClasses(c: char)
    ensures IsSymbol(c) && IsDelimiter(c) <==> c == '<' || c == '>'
    ensures IsSep(c) ==> !IsSymbol(c) && !IsDelimiter(c) && !IsWhitespace(c) && !InIdent(c) && !StartsIdent(c)
    ensures StartsIdent(c) || InIdent(c) ==> InIntLiteral(c)
    ensures IsDigit(c) ==> InIdent(c) && !StartsIdent(c) && InIntLiteral(c)
    ensures DelimiterOf(c).Some? ==> IsDelimiter(c) && !IsSep(c)
  {
  }

  /** Both brackets of every group kind are delimiter characters; only the opening one starts a group. */
  lemma BracketClasses(d: Delimiter)
    ensures IsDelimiter(d.Opening()) && IsDelimiter(d.Closing())
    ensures DelimiterOf(d.Opening()) == Some(d) && DelimiterOf(d.Closing()).None?
  {
  }

  /** The number of bytes of `c` in UTF-8. */
  function Utf8Len(c: char): nat {
    if c as int < 0x80 then 1 else if c as int < 0x800 then 2 else if c as int < 0x1_0000 then 3 else 4
  }

  /** `String::len`: the UTF-8 byte length of `s`. */
  function Utf8Width(s: string): (n: nat)
    ensures n >= |s|
    ensures (forall k :: 0 <= k < |s| ==> s[k] as int < 0x80) ==> n == |s|
  {
    if s == [] then 0 else Utf8Width(s[..|s| - 1]) + Utf8Len(s[|s| - 1])
  }

  // ---------------------------------------------------------------------
  // Integer literals

  /** The outcome of `str::parse::<i32>` on a literal that starts with a digit. */
  datatype ParsedInt = Parsed(value: I32) | InvalidDigit | PosOverflow
  {
    /** The reason Rust's `ParseIntError` displays. */
    function Reason(): string
      requires !Parsed?
    {
      if InvalidDigit? then "invalid digit found in string" else "number too large to fit in target type"
    }
  }

  const I32Max: nat := 0x7FFF_FFFF

  /** Left to right, as `from_str_radix` does: the first bad digit or overflow wins. */
  function ParseDigitsFrom(s: string, i: nat, acc: nat): ParsedInt
    requires i <= |s| && acc <= I32Max
    decreases |s| - i
  {
    if i == |s| then Parsed(acc as I32)
    else if !IsDigit(s[i]) then InvalidDigit
    else
      var next := acc * 10 + ((s[i] as int) - ('0' as int));
      if next > I32Max then PosOverflow else ParseDigitsFrom(s, i + 1, next)
  }

  function ParseI32(s: string): ParsedInt {
    ParseDigitsFrom(s, 0, 0)
  }

  lemma {:induction false} ParseDigitsFromSpec(s: string, i: nat)
    requires i <= |s| && AllDigits(s[..i]) && DigitsValue(s[..i]) <= I32Max
    ensures var r := ParseDigitsFrom(s, i, DigitsValue(s[..i]));
      (r.Parsed? <==> AllDigits(s) && DigitsValue(s) <= I32Max)
      && (r.Parsed? ==> r.value as int == DigitsValue(s))
    decreases |s| - i
  {
    if i == |s| {
      assert s[..i] == s;
    } else {
      assert s[..i + 1][..i] == s[..i];
      if IsDigit(s[i]) {
        var next := DigitsValue(s[..i]) * 10 + ((s[i] as int) - ('0' as int));
        assert AllDigits(s[..i + 1]);
        assert DigitsValue(s[..i + 1]) == next;
        if next > I32Max {
          if AllDigits(s) {
            DigitsValueGrows(s, i + 1);
          }
        } else {
          ParseDigitsFromSpec(s, i + 1);
        }
      } else {
        assert !AllDigits(s);
      }
    }
  }

  /** The value of a digit string is at least the value of any of its prefixes. */
  lemma {:induction false} DigitsValueGrows(s: string, i: nat)
    requires i <= |s| && AllDigits(s)
    ensures AllDigits(s[..i]) && DigitsValue(s[..i]) <= DigitsValue(s)
    decreases |s| - i
  {
    if i == |s| {
      assert s[..i] == s;
    } else {
      DigitsValueGrows(s, i + 1);
      assert s[..i + 1][..i] == s[..i];
    }
  }

  /**
   * A literal parses exactly when it is all decimal digits with a value
   * that fits in an `i32`, and then to that value.
   */
  lemma ParseI32Spec(s: string)
    ensures ParseI32(s).Parsed? <==> AllDigits(s) && DigitsValue(s) <= I32Max
    ensures ParseI32(s).Parsed? ==> ParseI32(s).value as int == DigitsValue(s)
  {
    assert s[..0] == [];
    ParseDigitsFromSpec(s, 0);
  }

  // ---------------------------------------------------------------------
  // Scanning helpers

  /** The first position at or after `from` holding `c`. */
  function IndexOf(chars: seq<char>, c: char, from: nat): (r: Option<nat>)
    requires from <= |chars|
    ensures r.Some? ==> from <= r.value < |chars| && chars[r.value] == c
    ensures r.Some? ==> forall k :: from <= k < r.value ==> chars[k] != c
    ensures r.None? <==> forall k :: from <= k < |chars| ==> chars[k] != c
    decreases |chars| - from
  {
    if from == |chars| then None
    else if chars[from] == c then Some(from)
    else IndexOf(chars, c, from + 1)
  }

  /** The end of the longest run of characters satisfying `p` from `from`. */
  function RunEnd(chars: seq<char>, from: nat, p: char -> bool): (e: nat)
    requires from <= |chars|
    ensures from <= e <= |chars|
    ensures forall k :: from <= k < e ==> p(chars[k])
    ensures e < |chars| ==> !p(chars[e])
    decreases |chars| - from
  {
    if from == |chars| || !p(chars[from]) then from else RunEnd(chars, from + 1, p)
  }

  /** A run's end is determined by the run: any `e` with the two end properties is `RunEnd`. */
  lemma {:induction false} RunEndUnique(chars: seq<char>, from: nat, p: char -> bool, e: nat)
    requires from <= e <= |chars|
    requires forall k :: from <= k < e ==> p(chars[k])
    requires e < |chars| ==> !p(chars[e])
    ensures RunEnd(chars, from, p) == e
    decreases e - from
  {
    if from < e {
      RunEndUnique(chars, from + 1, p, e);
    }
  }

  /** `len_scope`: the `len` characters before `index`; the subtraction panics when it underflows. */
  function LenScope(file: FileRef, index: nat, len: nat): (r: CompileResult<SrcScope>)
    ensures r.Ok? <==> len <= index
    ensures r.Ok? ==> r.value.start + len == index && r.value.end == index && r.value.file == file
  {
    if len > index then Err(Panic("attempt to subtract with overflow"))
    else Ok(SrcScope(index - len, index, file))
  }

  // ---------------------------------------------------------------------
  // Specification of one `next` call and of one lexing loop

  /** What one `next` call yields: a token, or none for whitespace, and the index after it. */
  datatype Lexed = Lexed(token: Option<Token>, next: nat)

  /** What a lexing loop yields: the tokens, without the final `End`, and the index after them. */
  datatype LexedSeq = LexedSeq(tokens: seq<Token>, next: nat)

  function Prepend(t: Option<Token>, ts: seq<Token>): seq<Token> {
    if t.Some? then [t.value] + ts else ts
  }

  /** `acc` put in front of the tokens of a successful loop result. */
  function Prefixed(acc: seq<Token>, r: CompileResult<Option<LexedSeq>>): CompileResult<Option<LexedSeq>> {
    if r.Ok? && r.value.Some? then Ok(Some(LexedSeq(acc + r.value.value.tokens, r.value.value.next))) else r
  }

  function Problem(scope: SrcScope, cause: string, pointer: string): CompileErr {
    Error(scope, ErrorInfo(cause, pointer, None, None))
  }

  /** A string literal: everything up to the next quote. */
  function LexString(chars: seq<char>, file: FileRef, i: nat): (r: CompileResult<Lexed>)
    requires i < |chars|
    ensures r.Ok? ==> i < r.value.next <= |chars|
  {
    match IndexOf(chars, '"', i + 1)
    case None =>
      Err(Problem(SrcScope(i, |chars|, file), "missing closing quote", "opening quote is missing a matching closing quote"))
    case Some(q) =>
      Ok(Lexed(Some(Str(chars[i + 1..q], SrcScope(i, q + 1, file))), q + 1))
  }

  /** A symbol: the longest run of symbol characters. */
  function LexSymbol(chars: seq<char>, file: FileRef, i: nat): (r: CompileResult<Lexed>)
    requires i < |chars|
    ensures r.Ok? ==> i < r.value.next <= |chars|
  {
    var e := RunEnd(chars, i + 1, IsSymbol);
    var value := chars[i..e];
    var scope :- LenScope(file, e, Utf8Width(value));
    Ok(Lexed(Some(Symbol(value, scope)), e))
  }

  /** An integer literal: everything up to the next character that ends one, parsed as an `i32`. */
  function LexNumber(chars: seq<char>, file: FileRef, i: nat): (r: CompileResult<Lexed>)
    requires i < |chars|
    ensures r.Ok? ==> i < r.value.next <= |chars|
  {
    var e := RunEnd(chars, i + 1, InIntLiteral);
    var value := chars[i..e];
    var scope :- LenScope(file, e, Utf8Width(value));
    var parsed := ParseI32(value);
    if parsed.Parsed? then Ok(Lexed(Some(Int(parsed.value, scope)), e))
    else Err(Problem(scope, "invalid integer literal", "failed to parse integer, reason: " + parsed.Reason()))
  }

  /** An identifier: the longest run of identifier characters. */
  function LexIdent(chars: seq<char>, file: FileRef, i: nat): (r: CompileResult<Lexed>)
    requires i < |chars|
    ensures r.Ok? ==> i < r.value.next <= |chars|
  {
    var e := RunEnd(chars, i + 1, InIdent);
    var value := chars[i..e];
    var scope :- LenScope(file, e, Utf8Width(value));
    Ok(Lexed(Some(Ident(value, scope)), e))
  }

  /** `next` on the character at `i`, in the source's order of tests. */
  function LexOne(chars: seq<char>, file: FileRef, i: nat): (r: CompileResult<Lexed>)
    requires i < |chars|
    ensures r.Ok? ==> i < r.value.next <= |chars|
    decreases |chars| - i, 2
  {
    var c := chars[i];
    if c == '"' then LexString(chars, file, i)
    else if IsSep(c) then Ok(Lexed(Some(Sep(c, SrcScope(i, i + 1, file))), i + 1))
    else if IsSymbol(c) then LexSymbol(chars, file, i)
    else if IsDigit(c) then LexNumber(chars, file, i)
    else if StartsIdent(c) then LexIdent(chars, file, i)
    else if IsWhitespace(c) then Ok(Lexed(None, i + 1))
    else if DelimiterOf(c).Some? then LexGroup(chars, file, i, DelimiterOf(c).value)
    else Err(Problem(SrcScope(i, i + 1, file), "illegal character", "this character does not start a token"))
  }

  /**
   * A group opened at `i`: the tokens up to the matching closing bracket,
   * then an `End` at that bracket; the scope runs through the bracket.
   */
  function LexGroup(chars: seq<char>, file: FileRef, i: nat, d: Delimiter): (r: CompileResult<Lexed>)
    requires i < |chars|
    ensures r.Ok? ==> i + 1 < r.value.next <= |chars|
    decreases |chars| - i, 1
  {
    var inner :- LexSeq(chars, file, i + 1, Some(d.Closing()));
    match inner
    case None =>
      Err(Problem(SrcScope(i, i + 1, file), "missing closing delimiter", "opening delimiter doesn't have a matching closing delimiter"))
    case Some(LexedSeq(tokens, next)) =>
      Ok(Lexed(Some(Group(d, tokens + [End(SrcScope(next - 1, next, file))], SrcScope(i, next, file))), next))
  }

  /**
   * The lexing loop from `i`: at top level (`close` is `None`) up to the
   * end of the input; inside a group up to and past the closing bracket,
   * or `None` when the input ends first.
   */
  function LexSeq(chars: seq<char>, file: FileRef, i: nat, close: Option<char>): (r: CompileResult<Option<LexedSeq>>)
    requires i <= |chars|
    ensures r.Ok? && r.value.Some? ==> i <= r.value.value.next <= |chars|
    ensures r.Ok? && r.value.Some? && close.Some? ==> i < r.value.value.next
    ensures r.Ok? && close.None? ==> r.value.Some? && r.value.value.next == |chars|
    decreases |chars| - i, 3
  {
    if i == |chars| then Ok(if close.None? then Some(LexedSeq([], i)) else None)
    else if close == Some(chars[i]) then Ok(Some(LexedSeq([], i + 1)))
    else
      var step :- LexOne(chars, file, i);
      var rest :- LexSeq(chars, file, step.next, close);
      Ok(if rest.Some? then Some(LexedSeq(Prepend(step.token, rest.value.tokens), rest.value.next)) else None)
  }

  /** `lex` from index `i`: the loop, then the final `End` on the last character. */
  function LexFrom(chars: seq<char>, file: FileRef, i: nat): CompileResult<seq<Token>>
    requires i <= |chars|
  {
    var top :- LexSeq(chars, file, i, None);
    var scope :- LenScope(file, |chars|, 1);
    Ok(top.value.tokens + [End(scope)])
  }

  /** `Lexer::new(file).lex()`. */
  function LexFile(chars: seq<char>, file: FileRef): CompileResult<seq<Token>> {
    LexFrom(chars, file, 0)
  }

  /** A `next` call's result and index agree with its specification. */
  predicate Agrees(spec: CompileResult<Lexed>, r: CompileResult<Option<Token>>, index: nat) {
    (spec.Ok? ==> r == Ok(spec.value.token) && index == spec.value.next)
    && (spec.Err? ==> r == Err(spec.err))
  }

  lemma PrefixedEmpty(r: CompileResult<Option<LexedSeq>>)
    ensures Prefixed([], r) == r
  {
    if r.Ok? && r.value.Some? {
      assert [] + r.value.value.tokens == r.value.value.tokens;
    }
  }

  /** When `next` fails inside the loop, the loop fails with the same error. */
  lemma LexSeqFails(chars: seq<char>, file: FileRef, i: nat, close: Option<char>, acc: seq<Token>)
    requires i < |chars| && close != Some(chars[i])
    ensures LexOne(chars, file, i).Err? ==> Prefixed(acc, LexSeq(chars, file, i, close)) == Err(LexOne(chars, file, i).err)
  {
  }

  /**
   * One turn of a lexing loop: when the character at `i` is not the
   * closer and `next` succeeds, the loop from `i` is that token in front
   * of the loop from where `next` stopped.
   */
  lemma LexSeqStep(chars: seq<char>, file: FileRef, i: nat, close: Option<char>, acc: seq<Token>)
    requires i < |chars| && close != Some(chars[i]) && LexOne(chars, file, i).Ok?
    ensures var step := LexOne(chars, file, i).value;
      Prefixed(acc, LexSeq(chars, file, i, close))
      == Prefixed(acc + (if step.token.Some? then [step.token.value] else []), LexSeq(chars, file, step.next, close))
  {
    var step := LexOne(chars, file, i).value;
    var rest := LexSeq(chars, file, step.next, close);
    if rest.Ok? && rest.value.Some? {
      if step.token.Some? {
        assert acc + ([step.token.value] + rest.value.value.tokens) == acc + [step.token.value] + rest.value.value.tokens;
      } else {
        assert acc + [] == acc;
      }
    }
  }

  /** Reaching the closer ends a group loop just past it, with the tokens gathered so far. */
  lemma LexSeqAtCloser(chars: seq<char>, file: FileRef, i: nat, close: char, acc: seq<Token>)
    requires i < |chars| && chars[i] == close
    ensures Prefixed(acc, LexSeq(chars, file, i, Some(close))) == Ok(Some(LexedSeq(acc, i + 1)))
  {
    assert acc + [] == acc;
  }

  // ---------------------------------------------------------------------
  // What each branch of `next` produces

  /**
   * A quote starts a string token holding exactly the characters up to the
   * next quote, scoped from the opening quote through the closing one; with
   * no closing quote the result is an error from the opening quote to the
   * end of the input.
   */
  lemma LexStringOutcome(chars: seq<char>, file: FileRef, i: nat)
    requires i < |chars| && chars[i] == '"'
    ensures var r := LexOne(chars, file, i);
      (r.Ok? <==> exists q :: i < q < |chars| && chars[q] == '"')
      && (r.Ok? ==>
            var next := r.value.next;
            chars[next - 1] == '"' && next - 1 > i
            && r.value.token == Some(Str(chars[i + 1..next - 1], SrcScope(i, next, file)))
            && forall k :: i < k < next - 1 ==> chars[k] != '"')
      && (r.Err? ==> r.err == Problem(SrcScope(i, |chars|, file), "missing closing quote", "opening quote is missing a matching closing quote"))
  {
    var r := LexOne(chars, file, i);
    if r.Err? {
      assert IndexOf(chars, '"', i + 1).None?;
    }
  }

  /** Each of `, : @ ; |` is a separator token of width one. */
  lemma LexSepOutcome(chars: seq<char>, file: FileRef, i: nat)
    requires i < |chars| && IsSep(chars[i])
    ensures LexOne(chars, file, i) == Ok(Lexed(Some(Sep(chars[i], SrcScope(i, i + 1, file))), i + 1))
  {
  }

  lemma AsciiWidth(s: string, p: char -> bool)
    requires forall k :: 0 <= k < |s| ==> p(s[k])
    requires forall c :: p(c) ==> c as int < 0x80
    ensures Utf8Width(s) == |s|
  {
  }

  /**
   * A symbol character starts the longest run of symbol characters, so
   * `->` is one symbol; the scope covers exactly the run.
   */
  lemma LexSymbolOutcome(chars: seq<char>, file: FileRef, i: nat)
    requires i < |chars| && IsSymbol(chars[i])
    ensures var r := LexOne(chars, file, i);
      r.Ok? &&
      var next := r.value.next;
      r.value.token == Some(Symbol(chars[i..next], SrcScope(i, next, file)))
      && (forall k :: i <= k < next ==> IsSymbol(chars[k]))
      && (next < |chars| ==> !IsSymbol(chars[next]))
  {
    var e := RunEnd(chars, i + 1, IsSymbol);
    AsciiWidth(chars[i..e], IsSymbol);
  }

  /** `<` and `>` always lex as symbols, so no group is ever angle-bracketed. */
  lemma LexAngleIsSymbol(chars: seq<char>, file: FileRef, i: nat)
    requires i < |chars| && (chars[i] == '<' || chars[i] == '>')
    ensures LexOne(chars, file, i).Ok? && LexOne(chars, file, i).value.token.value.Symbol?
  {
    LexSymbolOutcome(chars, file, i);
  }

  /**
   * A digit starts an integer literal running to the next whitespace,
   * separator, symbol or bracket. It succeeds exactly when that run is all
   * digits with a value that fits in an `i32`, giving that value scoped
   * to the run; otherwise the error is an invalid integer literal (or the
   * underflow panic of a scope whose byte length exceeds its end).
   */
  lemma LexNumberOutcome(chars: seq<char>, file: FileRef, i: nat)
    requires i < |chars| && IsDigit(chars[i])
    ensures var r := LexOne(chars, file, i);
      var e := RunEnd(chars, i + 1, InIntLiteral);
      var run := chars[i..e];
      (r.Ok? <==> AllDigits(run) && DigitsValue(run) <= I32Max)
      && (r.Ok? ==> r.value.next == e && r.value.token.Some? && r.value.token.value.Int?
                    && r.value.token.value.number as int == DigitsValue(run)
                    && r.value.token.value.scope == SrcScope(i, e, file))
      && (r.Err? ==> r.err.Panic? || (r.err.Error? && r.err.info.cause == "invalid integer literal"))
  {
    var c := chars[i];
    assert c != '"' && !IsSep(c) && !IsSymbol(c);
    assert LexOne(chars, file, i) == LexNumber(chars, file, i);
    var e := RunEnd(chars, i + 1, InIntLiteral);
    var run := chars[i..e];
    ParseI32Spec(run);
    if AllDigits(run) {
      AsciiWidth(run, IsDigit);
    }
  }

  /**
   * A letter, `_` or `$` starts an identifier running over letters, `_`
   * and digits; the scope covers exactly the run.
   */
  lemma LexIdentOutcome(chars: seq<char>, file: FileRef, i: nat)
    requires i < |chars| && StartsIdent(chars[i])
    ensures var r := LexOne(chars, file, i);
      r.Ok? &&
      var next := r.value.next;
      r.value.token == Some(Ident(chars[i..next], SrcScope(i, next, file)))
      && (forall k :: i < k < next ==> InIdent(chars[k]))
      && (next < |chars| ==> !InIdent(chars[next]))
  {
    var c := chars[i];
    assert c != '"' && !IsSep(c) && !IsSymbol(c) && !IsDigit(c);
    assert LexOne(chars, file, i) == LexIdent(chars, file, i);
    LexIdentRun(chars, file, i);
  }

  lemma LexIdentRun(chars: seq<char>, file: FileRef, i: nat)
    requires i < |chars| && StartsIdent(chars[i])
    ensures var r := LexIdent(chars, file, i);
      r.Ok? &&
      var next := r.value.next;
      r.value.token == Some(Ident(chars[i..next], SrcScope(i, next, file)))
      && (forall k :: i < k < next ==> InIdent(chars[k]))
      && (next < |chars| ==> !InIdent(chars[next]))
  {
    var e := RunEnd(chars, i + 1, InIdent);
    AsciiWidth(chars[i..e], c => StartsIdent(c) || InIdent(c));
  }

  /** Whitespace yields no token and moves one character on. */
  lemma LexWhitespaceOutcome(chars: seq<char>, file: FileRef, i: nat)
    requires i < |chars| && IsWhitespace(chars[i])
    ensures LexOne(chars, file, i) == Ok(Lexed(None, i + 1))
  {
    var c := chars[i];
    assert c != '"' && !IsSep(c) && !IsSymbol(c) && !IsDigit(c) && !StartsIdent(c);
  }

  /**
   * A group opened at `i` is scoped from the opening bracket through the
   * matching closing one, its token list being the tokens lexed in between
   * followed by an `End` on the closing bracket; when the input ends first
   * (and nothing failed before) the result is an error on the opening
   * bracket.
   */
  lemma LexGroupOutcome(chars: seq<char>, file: FileRef, i: nat, d: Delimiter)
    requires i < |chars|
    ensures var r := LexGroup(chars, file, i, d);
      var inner := LexSeq(chars, file, i + 1, Some(d.Closing()));
      (r.Ok? <==> inner.Ok? && inner.value.Some?)
      && (r.Ok? ==>
            var next := inner.value.value.next;
            r.value.next == next
            && r.value.token == Some(Group(d, inner.value.value.tokens + [End(SrcScope(next - 1, next, file))], SrcScope(i, next, file))))
  {
  }

  /** A group that lexes ends just past its closing bracket. */
  lemma LexGroupCloses(chars: seq<char>, file: FileRef, i: nat, d: Delimiter)
    requires i < |chars|
    ensures var r := LexGroup(chars, file, i, d);
      r.Ok? ==> chars[r.value.next - 1] == d.Closing()
  {
    LexSeqCloser(chars, file, i + 1, Some(d.Closing()));
  }

  /** A group whose input ends before its closing bracket (with nothing failing first) is an error on the opening bracket. */
  lemma LexGroupUnclosed(chars: seq<char>, file: FileRef, i: nat, d: Delimiter)
    requires i < |chars|
    requires LexSeq(chars, file, i + 1, Some(d.Closing())) == Ok(None)
    ensures LexGroup(chars, file, i, d) == Err(Problem(SrcScope(i, i + 1, file), "missing closing delimiter", "opening delimiter doesn't have a matching closing delimiter"))
  {
  }

  /** `(`, `{` and `[` are lexed as a group with their own delimiter. */
  lemma LexOpensGroup(chars: seq<char>, file: FileRef, i: nat)
    requires i < |chars| && (chars[i] == '(' || chars[i] == '{' || chars[i] == '[')
    ensures DelimiterOf(chars[i]).Some? && DelimiterOf(chars[i]).value.Opening() == chars[i]
    ensures LexOne(chars, file, i) == LexGroup(chars, file, i, DelimiterOf(chars[i]).value)
  {
    var c := chars[i];
    assert c != '"' && !IsSep(c) && !IsSymbol(c) && !IsDigit(c) && !StartsIdent(c) && !IsWhitespace(c);
  }

  /** A successful group loop stops just past its closing bracket. */
  lemma {:induction false} LexSeqCloser(chars: seq<char>, file: FileRef, i: nat, close: Option<char>)
    requires i <= |chars|
    ensures var r := LexSeq(chars, file, i, close);
      r.Ok? && r.value.Some? && close.Some? ==> chars[r.value.value.next - 1] == close.value
    decreases |chars| - i
  {
    if i < |chars| && close != Some(chars[i]) {
      var step := LexOne(chars, file, i);
      if step.Ok? {
        LexSeqCloser(chars, file, step.value.next, close);
      }
    }
  }

  /**
   * Any other character, including a closing bracket outside a group that
   * it closes, is an illegal character error on that character.
   */
  lemma LexIllegalOutcome(chars: seq<char>, file: FileRef, i: nat)
    requires i < |chars|
    requires var c := chars[i];
      c != '"' && !IsSep(c) && !IsSymbol(c) && !IsDigit(c) && !StartsIdent(c) && !IsWhitespace(c)
      && c != '(' && c != '{' && c != '['
    ensures LexOne(chars, file, i) == Err(Problem(SrcScope(i, i + 1, file), "illegal character", "this character does not start a token"))
  {
  }

  // ---------------------------------------------------------------------
  // The shape of the lexer's output

  /**
   * A token as the lexer produces it: never `End`, in `file`, non-empty;
   * a group is round-, curly- or square-bracketed, its list ends in an
   * `End` on its closing bracket, and its other tokens are themselves
   * lexed tokens lying strictly inside its brackets, in source order.
   */
  predicate LexedToken(t: Token, file: FileRef)
    decreases t
  {
    !t.End? && t.scope.file == file && t.scope.start < t.scope.end
    && (t.Group? ==>
          t.delimiter != AngledBrackets && t.scope.start + 1 < t.scope.end
          && |t.tokens| > 0 && t.tokens[|t.tokens| - 1] == End(SrcScope(t.scope.end - 1, t.scope.end, file))
          && InOrder(t.tokens[..|t.tokens| - 1], t.scope.start + 1, t.scope.end - 1)
          && forall k :: 0 <= k < |t.tokens| - 1 ==> LexedToken(t.tokens[k], file))
  }

  /** The scopes of `ts` lie within `[lo, hi)`, each ending before the next starts. */
  predicate InOrder(ts: seq<Token>, lo: nat, hi: nat) {
    (forall k :: 0 <= k < |ts| ==> lo <= ts[k].scope.start && ts[k].scope.end <= hi)
    && (forall k :: 0 <= k < |ts| - 1 ==> ts[k].scope.end <= ts[k + 1].scope.start)
  }

  lemma {:induction false} LexOneShape(chars: seq<char>, file: FileRef, i: nat)
    requires i < |chars|
    ensures var r := LexOne(chars, file, i);
      r.Ok? && r.value.token.Some? ==>
        LexedToken(r.value.token.value, file)
        && i <= r.value.token.value.scope.start && r.value.token.value.scope.end <= r.value.next
    decreases |chars| - i, 2
  {
    var c := chars[i];
    if c == '"' {
    } else if IsSep(c) {
    } else if IsSymbol(c) {
      LexSymbolOutcome(chars, file, i);
    } else if IsDigit(c) {
      LexNumberOutcome(chars, file, i);
    } else if StartsIdent(c) {
      LexIdentOutcome(chars, file, i);
    } else if IsWhitespace(c) {
    } else if DelimiterOf(c).Some? {
      LexGroupShape(chars, file, i, DelimiterOf(c).value);
    }
  }

  lemma {:induction false} LexGroupShape(chars: seq<char>, file: FileRef, i: nat, d: Delimiter)
    requires i < |chars| && d != AngledBrackets
    ensures var r := LexGroup(chars, file, i, d);
      r.Ok? ==>
        r.value.token.Some? && LexedToken(r.value.token.value, file)
        && r.value.token.value.scope == SrcScope(i, r.value.next, file)
    decreases |chars| - i, 1
  {
    var r := LexGroup(chars, file, i, d);
    LexSeqShape(chars, file, i + 1, Some(d.Closing()));
    if r.Ok? {
      var inner := LexSeq(chars, file, i + 1, Some(d.Closing())).value.value;
      var t := r.value.token.value;
      assert t.tokens[..|t.tokens| - 1] == inner.tokens;
    }
  }

  /** Putting one lexed token (or none) in front of lexed tokens that follow it. */
  lemma PrependInOrder(t: Option<Token>, ts: seq<Token>, file: FileRef, lo: nat, mid: nat, hi: nat)
    requires lo <= mid <= hi
    requires t.Some? ==> LexedToken(t.value, file) && lo <= t.value.scope.start && t.value.scope.end <= mid
    requires InOrder(ts, mid, hi) && forall k :: 0 <= k < |ts| ==> LexedToken(ts[k], file)
    ensures var all := Prepend(t, ts);
      InOrder(all, lo, hi) && forall k :: 0 <= k < |all| ==> LexedToken(all[k], file)
  {
    var all := Prepend(t, ts);
    if t.Some? {
      assert all[0] == t.value;
      forall k | 1 <= k < |all|
        ensures all[k] == ts[k - 1]
      {
      }
      forall k | 0 <= k < |all|
        ensures LexedToken(all[k], file) && lo <= all[k].scope.start && all[k].scope.end <= hi
      {
        if k > 0 {
          assert all[k] == ts[k - 1];
        }
      }
      forall k | 0 <= k < |all| - 1
        ensures all[k].scope.end <= all[k + 1].scope.start
      {
        assert all[k + 1] == ts[k];
        if k > 0 {
          assert all[k] == ts[k - 1];
        }
      }
    }
  }

  lemma {:induction false} LexSeqShape(chars: seq<char>, file: FileRef, i: nat, close: Option<char>)
    requires i <= |chars|
    ensures var r := LexSeq(chars, file, i, close);
      r.Ok? && r.value.Some? ==>
        var ls := r.value.value;
        var hi := if close.Some? then ls.next - 1 else ls.next;
        InOrder(ls.tokens, i, hi) && forall k :: 0 <= k < |ls.tokens| ==> LexedToken(ls.tokens[k], file)
    decreases |chars| - i, 3
  {
    if i < |chars| && close != Some(chars[i]) {
      var step := LexOne(chars, file, i);
      if step.Ok? {
        LexOneShape(chars, file, i);
        var next := step.value.next;
        LexSeqShape(chars, file, next, close);
        var rest := LexSeq(chars, file, next, close);
        if rest.Ok? && rest.value.Some? {
          var ls := rest.value.value;
          var hi := if close.Some? then ls.next - 1 else ls.next;
          PrependInOrder(step.value.token, ls.tokens, file, i, next, hi);
          assert LexSeq(chars, file, i, close) == Ok(Some(LexedSeq(Prepend(step.value.token, ls.tokens), ls.next)));
        }
      }
    }
  }

  /** Lexed tokens are end-terminated at every level of nesting. */
  lemma {:induction false} LexedTokensWellFormed(ts: seq<Token>, file: FileRef)
    requires |ts| > 0 && ts[|ts| - 1].End?
    requires forall k :: 0 <= k < |ts| - 1 ==> LexedToken(ts[k], file)
    ensures WellFormed(ts)
    decreases ts
  {
    forall k | 0 <= k < |ts| && ts[k].Group?
      ensures WellFormed(ts[k].tokens)
    {
      var g := ts[k];
      LexedTokensWellFormed(g.tokens, file);
    }
  }

  /**
   * A successful lex of a file ends with exactly one `End`, on the last
   * character, and has no other `End` at any level; every token lies in
   * the file, in source order, and no group is angle-bracketed.
   */
  lemma LexFileShape(chars: seq<char>, file: FileRef)
    ensures var r := LexFile(chars, file);
      r.Ok? ==>
        var ts := r.value;
        |chars| > 0 && EndTerminated(ts) && WellFormed(ts)
        && ts[|ts| - 1] == End(SrcScope(|chars| - 1, |chars|, file))
        && InOrder(ts[..|ts| - 1], 0, |chars|)
        && forall k :: 0 <= k < |ts| - 1 ==> LexedToken(ts[k], file)
  {
    var r := LexFile(chars, file);
    LexSeqShape(chars, file, 0, None);
    if r.Ok? {
      var ts := r.value;
      var top := LexSeq(chars, file, 0, None).value.value;
      assert ts[..|ts| - 1] == top.tokens;
      LexedTokensWellFormed(ts, file);
    }
  }

  /** `->` is a single symbol token, not two. */
  lemma ArrowIsOneSymbol(file: FileRef)
    ensures LexFile("->", file) == Ok([Symbol("->", SrcScope(0, 2, file)), End(SrcScope(1, 2, file))])
  {
    var chars := "->";
    assert IsSymbol(chars[0]) && IsSymbol(chars[1]);
    assert RunEnd(chars, 1, IsSymbol) == 2;
    LexSymbolOutcome(chars, file, 0);
    assert chars[0..2] == "->";
    assert LexOne(chars, file, 0) == Ok(Lexed(Some(Symbol("->", SrcScope(0, 2, file))), 2));
    assert LexSeq(chars, file, 2, None) == Ok(Some(LexedSeq([], 2)));
    assert Prepend(Some(Symbol("->", SrcScope(0, 2, file))), []) == [Symbol("->", SrcScope(0, 2, file))];
    assert LexSeq(chars, file, 0, None) == Ok(Some(LexedSeq([Symbol("->", SrcScope(0, 2, file))], 2)));
    assert LenScope(file, |chars|, 1) == Ok(SrcScope(1, 2, file));
    assert [Symbol("->", SrcScope(0, 2, file))] + [End(SrcScope(1, 2, file))] == [Symbol("->", SrcScope(0, 2, file)), End(SrcScope(1, 2, file))];
  }

  /** An empty file cannot be lexed: the final `End`'s scope underflows. */
  lemma LexEmptyFile(file: FileRef)
    ensures LexFile([], file) == Err(Panic("attempt to subtract with overflow"))
  {
  }

  // ---------------------------------------------------------------------
  // The lexer object

  class Lexer {
    const file: FileRef
    const chars: seq<char>
    var index: nat

    /** `Lexer::new`: the characters of the file, index 0. */
    constructor (reg: FileManager, file: FileRef)
      requires reg.Holds(file)
      ensures this.file == file && chars == file.Source(reg) && index == 0
    {
      this.file := file;
      chars := reg.sources[file.index];
      index := 0;
    }

    /** Lexes from the current index to the end and appends the final `End`. */
    method Lex() returns (r: CompileResult<seq<Token>>)
      requires index <= |chars|
      modifies this
      ensures r == LexFrom(chars, file, old(index))
    {
      var tokens: seq<Token> := [];
      PrefixedEmpty(LexSeq(chars, file, index, None));
      while index < |chars|
        invariant old(index) <= index <= |chars|
        invariant LexSeq(chars, file, old(index), None) == Prefixed(tokens, LexSeq(chars, file, index, None))
        decreases |chars| - index
      {
        var c := chars[index];
        ghost var before := index;
        LexSeqFails(chars, file, before, None, tokens);
        var token :- Next(c);
        LexSeqStep(chars, file, before, None, tokens);
        if token.Some? {
          tokens := tokens + [token.value];
        } else {
          assert tokens + [] == tokens;
        }
      }
      assert tokens + [] == tokens;
      assert LexSeq(chars, file, old(index), None) == Ok(Some(LexedSeq(tokens, |chars|)));
      var scope :- LenScope(file, index, 1);
      tokens := tokens + [End(scope)];
      return Ok(tokens);
    }

    /** `next`: lexes the token that starts with `c`, the character at the index. */
    method Next(c: char) returns (r: CompileResult<Option<Token>>)
      requires index < |chars| && c == chars[index]
      modifies this
      decreases |chars| - index, 1
      ensures Agrees(LexOne(chars, file, old(index)), r, index)
    {
      if c == '"' {
        r := NextString();
        return;
      }
      if IsSep(c) {
        index := index + 1;
        return Ok(Some(Sep(c, SrcScope(index - 1, index, file))));
      }
      if IsSymbol(c) {
        r := NextSymbol();
        return;
      }
      if IsDigit(c) {
        r := NextNumber();
        return;
      }
      if StartsIdent(c) {
        r := NextIdent();
        return;
      }
      if IsWhitespace(c) {
        index := index + 1;
        return Ok(None);
      }
      var delimiter := DelimiterOf(c);
      if delimiter.Some? {
        var openingPos := index;
        var tokens :- GetGroupTokens(delimiter.value.Closing());
        if tokens.None? {
          return Err(Problem(SrcScope(openingPos, openingPos + 1, file), "missing closing delimiter",
                             "opening delimiter doesn't have a matching closing delimiter"));
        }
        return Ok(Some(Group(delimiter.value, tokens.value, SrcScope(openingPos, index, file))));
      }
      index := index + 1;
      return Err(Problem(SrcScope(index - 1, index, file), "illegal character", "this character does not start a token"));
    }

    /** The string branch of `next`: collects characters up to the closing quote. */
    method NextString() returns (r: CompileResult<Option<Token>>)
      requires index < |chars| && chars[index] == '"'
      modifies this
      ensures Agrees(LexString(chars, file, old(index)), r, index)
    {
      var openingPos := index;
      var s := "";
      var foundClosing := false;
      index := index + 1;
      while index < |chars|
        invariant openingPos < index <= |chars|
        invariant s == chars[openingPos + 1..index]
        invariant forall k :: openingPos < k < index ==> chars[k] != '"'
        decreases |chars| - index
      {
        var c := chars[index];
        index := index + 1;
        if c == '"' {
          foundClosing := true;
          break;
        }
        s := s + [c];
      }
      var scope := SrcScope(openingPos, index, file);
      if !foundClosing {
        return Err(Problem(scope, "missing closing quote", "opening quote is missing a matching closing quote"));
      }
      return Ok(Some(Str(s, scope)));
    }

    /** The symbol branch of `next`: the longest run of symbol characters. */
    method NextSymbol() returns (r: CompileResult<Option<Token>>)
      requires index < |chars| && IsSymbol(chars[index])
      modifies this
      ensures Agrees(LexSymbol(chars, file, old(index)), r, index)
    {
      var start := index;
      var value := [chars[index]];
      index := index + 1;
      while index < |chars|
        invariant start < index <= |chars|
        invariant value == chars[start..index]
        invariant forall k :: start < k < index ==> IsSymbol(chars[k])
        decreases |chars| - index
      {
        var nc := chars[index];
        if !IsSymbol(nc) {
          break;
        }
        value := value + [nc];
        index := index + 1;
      }
      RunEndUnique(chars, start + 1, IsSymbol, index);
      var scope :- LenScope(file, index, Utf8Width(value));
      return Ok(Some(Symbol(value, scope)));
    }

    /** The integer branch of `next`: up to the next separating character, then parsed. */
    method NextNumber() returns (r: CompileResult<Option<Token>>)
      requires index < |chars| && IsDigit(chars[index])
      modifies this
      ensures Agrees(LexNumber(chars, file, old(index)), r, index)
    {
      var start := index;
      var value := [chars[index]];
      index := index + 1;
      while index < |chars|
        invariant start < index <= |chars|
        invariant value == chars[start..index]
        invariant forall k :: start < k < index ==> !IsIdentSep(chars[k])
        decreases |chars| - index
      {
        var nc := chars[index];
        if IsIdentSep(nc) {
          break;
        }
        value := value + [nc];
        index := index + 1;
      }
      RunEndUnique(chars, start + 1, InIntLiteral, index);
      var scope :- LenScope(file, index, Utf8Width(value));
      var parsed := ParseI32(value);
      if !parsed.Parsed? {
        return Err(Problem(scope, "invalid integer literal", "failed to parse integer, reason: " + parsed.Reason()));
      }
      return Ok(Some(Int(parsed.value, scope)));
    }

    /** The identifier branch of `next`: the longest run of identifier characters. */
    method NextIdent() returns (r: CompileResult<Option<Token>>)
      requires index < |chars| && StartsIdent(chars[index])
      modifies this
      ensures Agrees(LexIdent(chars, file, old(index)), r, index)
    {
      var start := index;
      var value := [chars[index]];
      index := index + 1;
      while index < |chars|
        invariant start < index <= |chars|
        invariant value == chars[start..index]
        invariant forall k :: start < k < index ==> InIdent(chars[k])
        decreases |chars| - index
      {
        var nc := chars[index];
        if !InIdent(nc) {
          break;
        }
        value := value + [nc];
        index := index + 1;
      }
      RunEndUnique(chars, start + 1, InIdent, index);
      var scope :- LenScope(file, index, Utf8Width(value));
      return Ok(Some(Ident(value, scope)));
    }

    /**
     * `get_group_tokens`: from the opening bracket at the index, the tokens
     * up to the closing bracket `until` and an `End` at it; `None` when
     * the input ends first.
     */
    method GetGroupTokens(until: char) returns (r: CompileResult<Option<seq<Token>>>)
      requires index < |chars|
      modifies this
      decreases |chars| - index, 0
      ensures var spec := LexSeq(chars, file, old(index) + 1, Some(until));
        if spec.Err? then r == Err(spec.err)
        else if spec.value.None? then r == Ok(None)
        else
          r == Ok(Some(spec.value.value.tokens + [End(SrcScope(spec.value.value.next - 1, spec.value.value.next, file))]))
          && index == spec.value.value.next
    {
      var tokens: seq<Token> := [];
      var foundClosing := false;
      index := index + 1;
      ghost var spec := LexSeq(chars, file, index, Some(until));
      PrefixedEmpty(spec);
      while index < |chars|
        invariant old(index) < index <= |chars|
        invariant spec == Prefixed(tokens, LexSeq(chars, file, index, Some(until)))
        decreases |chars| - index
      {
        var c := chars[index];
        if c == until {
          LexSeqAtCloser(chars, file, index, until, tokens);
          foundClosing := true;
          index := index + 1;
          assert spec == Ok(Some(LexedSeq(tokens, index)));
          break;
        }
        ghost var before := index;
        var next := Next(c);
        if next.Err? {
          LexSeqFails(chars, file, before, Some(until), tokens);
          assert spec == Err(next.err);
          return Err(next.err);
        }
        var token := next.value;
        LexSeqStep(chars, file, before, Some(until), tokens);
        if token.Some? {
          tokens := tokens + [token.value];
        } else {
          assert tokens + [] == tokens;
        }
      }
      if !foundClosing {
        assert spec == Ok(None);
        return Ok(None);
      }
      var scope := SrcScope(index - 1, index, file);
      tokens := tokens + [End(scope)];
      return Ok(Some(tokens));
    }
  }
}
