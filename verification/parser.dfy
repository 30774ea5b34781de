/**
 * The parser: a datapack header (`datapack <name>;`) followed by
 * top-level items, of which only `function` exists. A function is
 * `function <name> [(<args>)] [at <location>] { }`; statement parsing is
 * not written yet, so only an empty body is accepted (any other body makes
 * the parser loop forever, modelled as `Diverges`).
 */
module Parsing {
  import opened Wrappers
  import opened Spans
  import opened Errors
  import opened Tokens
  import opened TokenStreams

  // ---------------------------------------------------------------------
  // The syntax tree

  datatype Datapack = Datapack(name: IdentTok, functions: seq<Function>)

  datatype Function = Function(
    scope: SrcScope,
    block: GroupTok,
    name: IdentTok,
    args: Option<FunctionArgs>,
    at: Option<At>,
    statements: seq<Statement>)

  /**
   * A parenthesised argument list: input names, then after `->` output
   * names, then after `:` one objective name.
   */
  datatype FunctionArgs = FunctionArgs(
    group: GroupTok,
    input: seq<IdentTok>,
    arrow: Option<SymbolTok>,
    output: seq<IdentTok>,
    colon: Option<SepTok>,
    objective: Option<IdentTok>)

  /** An `at <location>` modifier; the scope runs from `at` through the location word. */
  datatype At = At(scope: SrcScope, at: IdentTok, loc: Loc, locIdent: IdentTok)

  datatype Loc = Player | Players | Entity | Entities | Any

  /** Statement forms declared for function bodies; none is parsed yet. */
  datatype Statement =
    | Unsafe(commands: seq<UnsafeCmdCall>)
    | FunctionCall
    | If(condition: ConditionalCall, statements: seq<Statement>)

  datatype UnsafeCmdCall = UnsafeCmdCall(tokens: seq<Token>)

  datatype ConditionalCall = ConditionalCall(name: IdentTok)

  /** A parse result together with the stream position after it. */
  datatype Consumed<T> = Consumed(value: T, cursor: nat)

  // ---------------------------------------------------------------------
  // Locations

  /** The word for each location. */
  function LocName(l: Loc): string {
    match l
    case Player => "player"
    case Players => "players"
    case Entity => "entity"
    case Entities => "entities"
    case Any => "any"
  }

  /**
   * `expect_loc`: an identifier naming one of the five locations, otherwise
   * an "invalid location" error on the token.
   */
  function ExpectLoc(t: Token, more: string, help: Option<Help>): (r: CompileResult<Loc>)
    ensures r.Ok? <==> t.Ident? && t.value in {"player", "players", "entity", "entities", "any"}
    ensures r.Ok? ==> t.value == LocName(r.value)
    ensures r.Err? ==> r == Err(Error(t.scope, ErrorInfo("invalid location", more, None, help)))
  {
    var err := Err(Error(t.scope, ErrorInfo("invalid location", more, None, help)));
    if t.Ident? then
      match t.value
      case "player" => Ok(Player)
      case "players" => Ok(Players)
      case "entity" => Ok(Entity)
      case "entities" => Ok(Entities)
      case "any" => Ok(Any)
      case _ => err
    else err
  }

  /** Every location's word is accepted, as that location. */
  lemma ExpectLocRoundTrip(l: Loc, scope: SrcScope, more: string, help: Option<Help>)
    ensures ExpectLoc(Ident(LocName(l), scope), more, help) == Ok(l)
  {
  }

  // ---------------------------------------------------------------------
  // Function arguments

  /** The argument scan's state: the fields of `FunctionArgs` other than the group. */
  datatype ArgScan = ArgScan(
    input: seq<IdentTok>,
    arrow: Option<SymbolTok>,
    output: seq<IdentTok>,
    colon: Option<SepTok>,
    objective: Option<IdentTok>)

  const NoArgs := ArgScan([], None, [], None, None)

  const ObjectivePanic := Panic("assertion failed: objective.is_none()")

  /**
   * Where an identifier goes: the objective once a colon has been seen
   * (a second one trips the source's assertion), an output once an arrow
   * has been seen, otherwise an input.
   */
  function ClassifyIdent(acc: ArgScan, t: IdentTok): (r: CompileResult<ArgScan>)
    ensures r.Err? <==> acc.colon.Some? && acc.objective.Some?
    ensures r.Err? ==> r.err == ObjectivePanic
    ensures r.Ok? ==> r.value.arrow == acc.arrow && r.value.colon == acc.colon
  {
    if acc.colon.Some? then
      if acc.objective.Some? then Err(ObjectivePanic) else Ok(acc.(objective := Some(t)))
    else if acc.arrow.Some? then Ok(acc.(output := acc.output + [t]))
    else Ok(acc.(input := acc.input + [t]))
  }

  /** One iteration of the scan: classify an identifier, then remember an `->` or a `:`. */
  function ScanArg(acc: ArgScan, t: Token): (r: CompileResult<ArgScan>)
    ensures !t.Ident? ==> r.Ok? && r.value.input == acc.input && r.value.output == acc.output && r.value.objective == acc.objective
    ensures r.Ok? && t.AsSymbolW("->").Some? ==> r.value.arrow == Some(t)
    ensures r.Ok? && t.AsSepW(':').Some? ==> r.value.colon == Some(t)
  {
    var acc1 :- if t.Ident? then ClassifyIdent(acc, t) else Ok(acc);
    var acc2 := if t.AsSymbolW("->").Some? then acc1.(arrow := t.AsSymbolW("->")) else acc1;
    Ok(if t.AsSepW(':').Some? then acc2.(colon := t.AsSepW(':')) else acc2)
  }

  /** The scan over `s` from state `acc`, stopping at the first failure. */
  function ScanFold(s: seq<Token>, acc: ArgScan): CompileResult<ArgScan>
    decreases |s|
  {
    if s == [] then Ok(acc)
    else
      var a :- ScanFold(s[..|s| - 1], acc);
      ScanArg(a, s[|s| - 1])
  }

  /** Continue a scan result over `s`, keeping a failure. */
  function ScanThen(r: CompileResult<ArgScan>, s: seq<Token>): CompileResult<ArgScan> {
    if r.Err? then r else ScanFold(s, r.value)
  }

  lemma {:induction false} ScanFoldAppend(a: seq<Token>, b: seq<Token>, acc: ArgScan)
    ensures ScanFold(a + b, acc) == ScanThen(ScanFold(a, acc), b)
    decreases |b|
  {
    if b == [] {
      assert a + b == a;
    } else {
      assert (a + b)[..|a + b| - 1] == a + b[..|b| - 1];
      ScanFoldAppend(a, b[..|b| - 1], acc);
    }
  }

  /** The identifiers of `s`, in order. */
  function Idents(s: seq<Token>): (r: seq<IdentTok>)
    ensures |r| <= |s|
    decreases |s|
  {
    if s == [] then []
    else
      var last := s[|s| - 1];
      Idents(s[..|s| - 1]) + match last.AsIdent() { case Some(t) => [t] case None => [] }
  }

  /** `s` contains neither an `->` symbol nor a `:` separator. */
  predicate NoMarks(s: seq<Token>) {
    forall k :: 0 <= k < |s| ==> s[k].AsSymbolW("->").None? && s[k].AsSepW(':').None?
  }

  /**
   * Before any colon, a stretch without arrows or colons adds its
   * identifiers to the inputs (no arrow yet) or to the outputs.
   */
  lemma {:induction false} ScanPlain(s: seq<Token>, acc: ArgScan)
    requires NoMarks(s) && acc.colon.None?
    ensures ScanFold(s, acc) == Ok(if acc.arrow.None? then acc.(input := acc.input + Idents(s)) else acc.(output := acc.output + Idents(s)))
    decreases |s|
  {
    if s == [] {
      assert acc.input + [] == acc.input && acc.output + [] == acc.output;
    } else {
      var s' := s[..|s| - 1];
      assert NoMarks(s') by {
        forall k | 0 <= k < |s'| ensures s'[k] == s[k] { }
      }
      ScanPlain(s', acc);
      var last := s[|s| - 1];
      assert last.AsSymbolW("->").None? && last.AsSepW(':').None?;
      var mid := if acc.arrow.None? then acc.(input := acc.input + Idents(s')) else acc.(output := acc.output + Idents(s'));
      assert ScanFold(s, acc) == ScanArg(mid, last);
      if last.Ident? {
        assert Idents(s) == Idents(s') + [last];
        assert acc.input + Idents(s') + [last] == acc.input + Idents(s);
        assert acc.output + Idents(s') + [last] == acc.output + Idents(s);
      } else {
        assert Idents(s) == Idents(s') + [];
        assert Idents(s) == Idents(s');
      }
    }
  }

  /**
   * After a colon, a stretch without arrows or colons may hold at most one
   * identifier overall, which becomes the objective; a second one trips
   * the assertion.
   */
  lemma {:induction false} ScanObjective(s: seq<Token>, acc: ArgScan)
    requires NoMarks(s) && acc.colon.Some?
    ensures var r := ScanFold(s, acc);
      var n := |Idents(s)| + if acc.objective.Some? then 1 else 0;
      (r.Ok? <==> n <= 1)
      && (r.Ok? ==> r.value == acc.(objective := if Idents(s) == [] then acc.objective else Some(Idents(s)[0])))
      && (r.Err? ==> r.err == ObjectivePanic)
    decreases |s|
  {
    if s != [] {
      var s' := s[..|s| - 1];
      assert NoMarks(s') by {
        forall k | 0 <= k < |s'| ensures s'[k] == s[k] { }
      }
      ScanObjective(s', acc);
      assert s[|s| - 1].AsSymbolW("->").None? && s[|s| - 1].AsSepW(':').None?;
    }
  }

  /** Scanning one more token continues from the scan of the prefix. */
  lemma ScanFoldSnoc(p: seq<Token>, t: Token, acc: ArgScan)
    ensures ScanFold(p + [t], acc) == if ScanFold(p, acc).Err? then ScanFold(p, acc) else ScanArg(ScanFold(p, acc).value, t)
  {
    assert (p + [t])[..|p|] == p;
  }

  /** A failed scan stays failed, however many tokens follow. */
  lemma ScanFoldFails(s: seq<Token>, n: nat, acc: ArgScan)
    requires n <= |s| && ScanFold(s[..n], acc).Err?
    ensures ScanFold(s, acc) == ScanFold(s[..n], acc)
  {
    assert s[..n] + s[n..] == s;
    ScanFoldAppend(s[..n], s[n..], acc);
  }

  /** A scan that fails on tokens before the first `End` fails the same way over all of them. */
  lemma ScanFailsBeforeEnd(ts: seq<Token>, n: nat)
    requires 0 < |ts| && ts[|ts| - 1].End? && n <= FirstEnd(ts, 0)
    requires ScanFold(ts[..n], NoArgs).Err?
    ensures ScanFold(ts[..FirstEnd(ts, 0)], NoArgs) == ScanFold(ts[..n], NoArgs)
  {
    var e := FirstEnd(ts, 0);
    assert ts[..e][..n] == ts[..n];
    ScanFoldFails(ts[..e], n, NoArgs);
  }

  /**
   * The intended shape `inputs -> outputs : objective` scans to exactly
   * those parts, with the arrow and the colon recorded.
   */
  lemma ArgsGrammar(a: seq<Token>, arrow: SymbolTok, b: seq<Token>, colon: SepTok, c: seq<Token>)
    requires NoMarks(a) && NoMarks(b) && NoMarks(c)
    requires arrow.value == "->" && colon.ch == ':' && |Idents(c)| <= 1
    ensures ScanFold(a + [arrow] + b + [colon] + c, NoArgs)
      == Ok(ArgScan(Idents(a), Some(arrow), Idents(b), Some(colon), if Idents(c) == [] then None else Some(Idents(c)[0])))
  {
    var s3 := NoArgs.(input := Idents(a), arrow := Some(arrow), output := Idents(b));
    ScanThroughArrow(a, arrow, b);
    var s4 := s3.(colon := Some(colon));
    ScanFoldSnoc(a + [arrow] + b, colon, NoArgs);
    assert ScanArg(s3, colon) == Ok(s4);
    ScanFoldAppend(a + [arrow] + b + [colon], c, NoArgs);
    ScanObjective(c, s4);
  }

  /** The inputs, the arrow and the outputs scan to those two lists with the arrow recorded. */
  lemma ScanThroughArrow(a: seq<Token>, arrow: SymbolTok, b: seq<Token>)
    requires NoMarks(a) && NoMarks(b) && arrow.value == "->"
    ensures ScanFold(a + [arrow] + b, NoArgs) == Ok(NoArgs.(input := Idents(a), arrow := Some(arrow), output := Idents(b)))
  {
    var s1 := NoArgs.(input := Idents(a));
    ScanPlain(a, NoArgs);
    assert [] + Idents(a) == Idents(a);
    var s2 := s1.(arrow := Some(arrow));
    ScanFoldSnoc(a, arrow, NoArgs);
    assert ScanArg(s1, arrow) == Ok(s2);
    ScanFoldAppend(a + [arrow], b, NoArgs);
    ScanPlain(b, s2);
    assert [] + Idents(b) == Idents(b);
  }

  /** A second identifier after the colon trips the source's assertion. */
  lemma SecondObjectivePanics(a: seq<Token>, colon: SepTok, c: seq<Token>)
    requires NoMarks(a) && NoMarks(c) && colon.ch == ':' && |Idents(c)| >= 2
    ensures ScanFold(a + [colon] + c, NoArgs) == Err(ObjectivePanic)
  {
    var s1 := NoArgs.(input := Idents(a));
    ScanPlain(a, NoArgs);
    assert [] + Idents(a) == Idents(a);
    var s2 := s1.(colon := Some(colon));
    ScanFoldSnoc(a, colon, NoArgs);
    assert ScanArg(s1, colon) == Ok(s2);
    ScanFoldAppend(a + [colon], c, NoArgs);
    ScanObjective(c, s2);
  }

  /** The position of the first `End` in an `End`-terminated list. */
  function FirstEnd(ts: seq<Token>, from: nat): (e: nat)
    requires from < |ts| && ts[|ts| - 1].End?
    ensures from <= e < |ts| && ts[e].End?
    ensures forall k :: from <= k < e ==> !ts[k].End?
    decreases |ts| - from
  {
    if ts[from].End? then from else FirstEnd(ts, from + 1)
  }

  /** The arguments of a parenthesised group: the scan over its tokens before the first `End`. */
  function ArgsOf(g: GroupTok): CompileResult<FunctionArgs> {
    var ok :- StreamCheck(g.tokens);
    var scan :- ScanFold(g.tokens[..FirstEnd(g.tokens, 0)], NoArgs);
    Ok(FunctionArgs(g, scan.input, scan.arrow, scan.output, scan.colon, scan.objective))
  }

  // ---------------------------------------------------------------------
  // Functions and the datapack

  const DatapackHelp := Some(Help("declare datapack at top of file", "datapack some_pack;", 0))

  const LocPointer := "expected `player`, `players`, `entity`, `entities`, or `any`"

  /** A token list the stream accepts: non-empty, ending in `End`. */
  predicate Stream(ts: seq<Token>) {
    |ts| > 0 && ts[|ts| - 1].End?
  }

  /**
   * The optional argument list, given the token `ts[p]` just taken: a
   * parenthesised group is scanned and the following token taken instead.
   * The result position is that of the token now held.
   */
  function ArgsPart(ts: seq<Token>, p: nat): (r: CompileResult<Consumed<Option<FunctionArgs>>>)
    requires Stream(ts) && p < |ts|
    ensures r.Ok? ==> p <= r.value.cursor < |ts|
    ensures r.Ok? && r.value.value.Some? ==> r.value.value.value.group == ts[p] && ts[p].delimiter == Parentheses
    ensures !(ts[p].Group? && ts[p].delimiter == Parentheses) ==> r == Ok(Consumed(None, p))
    ensures ts[p].Group? && ts[p].delimiter == Parentheses ==>
      var args := ArgsOf(ts[p]);
      (args.Ok? ==> r == Ok(Consumed(Some(args.value), Step(ts, p))))
      && (args.Err? ==> r == Err(args.err))
  {
    var t := ts[p];
    if t.Group? && t.delimiter == Parentheses then
      var args :- ArgsOf(t);
      Ok(Consumed(Some(args), Step(ts, p)))
    else Ok(Consumed(None, p))
  }

  /**
   * The optional `at <location>` modifier, given the token `ts[p]` just
   * taken; joining the two scopes asserts they are in the same file.
   */
  function AtPart(ts: seq<Token>, p: nat): (r: CompileResult<Consumed<Option<At>>>)
    requires Stream(ts) && p < |ts|
    ensures r.Ok? ==> p <= r.value.cursor < |ts|
    ensures r.Ok? && r.value.value.Some? ==>
      var at := r.value.value.value;
      at.at == ts[p] && at.at.value == "at" && at.locIdent.value == LocName(at.loc)
      && at.scope.start == at.at.scope.start && at.scope.end == at.locIdent.scope.end
      && at.scope.file == at.at.scope.file
      && at.locIdent == ts[Step(ts, p)] && r.value.cursor == Step(ts, Step(ts, p))
    ensures ts[p].AsIdentW("at").None? ==> r == Ok(Consumed(None, p))
    ensures ts[p].AsIdentW("at").Some? ==>
      var lp := Step(ts, p);
      var loc := ExpectLoc(ts[lp], LocPointer, None);
      (loc.Err? ==> r == Err(loc.err))
      && (loc.Ok? && ts[p].scope.file != ts[lp].scope.file ==> r == Err(Panic("assertion `left == right` failed")))
      && (loc.Ok? && ts[p].scope.file == ts[lp].scope.file ==> r.Ok? && r.value.value.Some? && r.value.value.value.loc == loc.value)
  {
    var t := ts[p];
    if t.AsIdentW("at").Some? then
      var lp := Step(ts, p);
      var loc :- ExpectLoc(ts[lp], LocPointer, None);
      if t.scope.file != ts[lp].scope.file then Err(Panic("assertion `left == right` failed"))
      else
        var locIdent: IdentTok := ts[lp];
        Ok(Consumed(Some(At(t.scope.Join(ts[lp].scope), t, loc, locIdent)), Step(ts, lp)))
    else Ok(Consumed(None, p))
  }

  /**
   * `parse_function_block`: the body's stream must hold only its `End`;
   * a statement makes the source loop forever.
   */
  function FunctionBlock(block: GroupTok): (r: CompileResult<seq<Statement>>)
    ensures r.Ok? <==> |block.tokens| > 0 && block.tokens[0].End? && block.tokens[|block.tokens| - 1].End?
    ensures r.Ok? ==> r.value == []
    ensures Stream(block.tokens) && !block.tokens[0].End? ==> r == Err(Diverges(block.scope))
  {
    var ok :- StreamCheck(block.tokens);
    if block.tokens[0].End? then Ok([]) else Err(Diverges(block.scope))
  }

  /**
   * `parse_function` with the stream at `c`, just past the `function`
   * keyword that starts at `start`: the name, the optional arguments and
   * `at` modifier, then a curly-bracketed body; the function's scope runs
   * from the keyword through the body's closing bracket.
   */
  function ParseFunctionFrom(ts: seq<Token>, c: nat, start: nat): (r: CompileResult<Consumed<Function>>)
    requires Stream(ts) && c < |ts|
    ensures r.Ok? ==> c < r.value.cursor < |ts|
    ensures r.Ok? ==>
      var f := r.value.value;
      f.name == ts[c] && f.block.delimiter == CurlyBrackets && f.statements == []
      && f.scope == SrcScope(start, f.block.scope.end, f.block.scope.file)
      && (f.args.Some? ==> f.args.value.group.delimiter == Parentheses)
  {
    var name :- ts[c].ExpectIdent("expected identifier for function name", None);
    var args :- ArgsPart(ts, Step(ts, c));
    var at :- AtPart(ts, args.cursor);
    var block :- ts[at.cursor].ExpectGroupW(CurlyBrackets, "expected (), `at`, or {}", None);
    var statements :- FunctionBlock(block);
    Ok(Consumed(Function(SrcScope(start, block.scope.end, block.scope.file), block, name, args.value, at.value, statements), Step(ts, at.cursor)))
  }

  /** Functions parsed so far put in front of a later result. */
  function WithFunctions(fs: seq<Function>, r: CompileResult<Consumed<seq<Function>>>): CompileResult<Consumed<seq<Function>>> {
    if r.Ok? then Ok(Consumed(fs + r.value.value, r.value.cursor)) else r
  }

  /**
   * The item loop from stream position `c`: items until the `End`, each
   * one an identifier, and only `function` is a known item.
   */
  function ParseItems(ts: seq<Token>, c: nat): (r: CompileResult<Consumed<seq<Function>>>)
    requires Stream(ts) && c < |ts|
    ensures r.Ok? ==> c <= r.value.cursor < |ts| && ts[r.value.cursor].End?
    ensures r.Ok? ==> forall f :: f in r.value.value ==> f.block.delimiter == CurlyBrackets && f.statements == []
    ensures ts[c].End? ==> r == Ok(Consumed([], c))
    ensures !ts[c].End? && !ts[c].Ident? ==> r == Err(ts[c].ExpectIdent("expected item declaration", None).err)
    ensures ts[c].Ident? && ts[c].value != "function" ==>
      r == Err(Error(ts[c].scope, ErrorInfo(ts[c].value, "expected top-level item declaration", None, None)))
    decreases |ts| - c
  {
    var next := ts[c];
    if next.End? then Ok(Consumed([], c))
    else
      var ident :- next.ExpectIdent("expected item declaration", None);
      if ident.value == "function" then
        var f :- ParseFunctionFrom(ts, c + 1, next.scope.start);
        var rest :- ParseItems(ts, f.cursor);
        Ok(Consumed([f.value] + rest.value, rest.cursor))
      else Err(Error(ident.scope, ErrorInfo(ident.value, "expected top-level item declaration", None, None)))
  }

  /** `parse` with the stream at `c`: the header `datapack <name>;`, then the items. */
  function ParseFrom(ts: seq<Token>, c: nat): (r: CompileResult<Datapack>)
    requires Stream(ts) && c < |ts|
    ensures ts[c].AsIdentW("datapack").None? ==>
      r == Err(ts[c].ExpectIdentW("datapack", "expected datapack declaration", DatapackHelp).err)
    ensures ts[c].AsIdentW("datapack").Some? && !ts[Step(ts, c)].Ident? ==>
      r == Err(ts[Step(ts, c)].ExpectIdent("expected datapack name", DatapackHelp).err)
    ensures r.Ok? ==>
      var c1 := Step(ts, c);
      var c2 := Step(ts, c1);
      ts[c].AsIdentW("datapack").Some? && ts[c1].Ident? && ts[c2].AsSepW(';').Some?
      && r.value.name == ts[c1]
      && ParseItems(ts, Step(ts, c2)).Ok? && r.value.functions == ParseItems(ts, Step(ts, c2)).value.value
  {
    var keyword :- ts[c].ExpectIdentW("datapack", "expected datapack declaration", DatapackHelp);
    var c1 := Step(ts, c);
    var name :- ts[c1].ExpectIdent("expected datapack name", DatapackHelp);
    var c2 := Step(ts, c1);
    var semi :- ts[c2].ExpectSepW(';', "expected semi-colon to finish statement", None);
    var items :- ParseItems(ts, Step(ts, c2));
    Ok(Datapack(name, items.value))
  }

  /** `Parser::new(tokens).parse()`. */
  function ParseTokens(ts: seq<Token>): CompileResult<Datapack>
    requires Stream(ts)
  {
    ParseFrom(ts, 0)
  }

  /**
   * A successful parse began with `datapack`, a name and `;`, and the
   * datapack is named by the second token.
   */
  lemma ParseNeedsHeader(ts: seq<Token>)
    requires Stream(ts)
    ensures ParseTokens(ts).Ok? ==>
      |ts| > 3 && ts[0].AsIdentW("datapack").Some? && ts[1].Ident? && ts[2].AsSepW(';').Some?
      && ParseTokens(ts).value.name == ts[1]
  {
  }

  /** A header alone is a datapack without functions. */
  lemma HeaderOnly(kw: SrcScope, name: IdentTok, semi: SrcScope, end: SrcScope)
    ensures ParseTokens([Ident("datapack", kw), name, Sep(';', semi), End(end)]) == Ok(Datapack(name, []))
  {
    var ts := [Ident("datapack", kw), name, Sep(';', semi), End(end)];
    assert Step(ts, 0) == 1 && Step(ts, 1) == 2 && Step(ts, 2) == 3;
    assert ParseItems(ts, 3) == Ok(Consumed([], 3));
  }

  /** One `function` item followed by the rest of the items. */
  lemma ParseItemsFunction(ts: seq<Token>, c: nat, functions: seq<Function>)
    requires Stream(ts) && c < |ts| && ts[c].AsIdentW("function").Some?
    requires ParseFunctionFrom(ts, c + 1, ts[c].scope.start).Ok?
    ensures var f := ParseFunctionFrom(ts, c + 1, ts[c].scope.start).value;
      WithFunctions(functions, ParseItems(ts, c)) == WithFunctions(functions + [f.value], ParseItems(ts, f.cursor))
  {
    var f := ParseFunctionFrom(ts, c + 1, ts[c].scope.start).value;
    var rest := ParseItems(ts, f.cursor);
    if rest.Ok? {
      assert functions + ([f.value] + rest.value.value) == functions + [f.value] + rest.value.value;
    }
  }

  // ---------------------------------------------------------------------
  // The parser object

  /** The parser: a token stream it reads from. */
  class Parser {
    const stream: TokenStream

    ghost predicate Valid()
      reads this, stream
    {
      stream.Valid()
    }

    /** `Parser::new`: a stream at the start of `tokens`. */
    constructor (tokens: seq<Token>)
      requires Stream(tokens)
      ensures Valid() && fresh(stream)
      ensures stream.tokens == tokens && stream.index == 0
    {
      stream := new TokenStream(tokens);
    }

    /**
     * `parse`: the datapack read from the current position, as
     * `ParseFrom` specifies; on success the stream rests on the final `End`.
     */
    method Parse() returns (r: CompileResult<Datapack>)
      requires Valid()
      modifies stream
      ensures Valid()
      ensures r == ParseFrom(stream.tokens, old(stream.index))
      ensures r.Ok? ==> stream.Current().End?
    {
      ghost var ts := stream.tokens;
      var t := stream.Next();
      var keyword :- t.ExpectIdentW("datapack", "expected datapack declaration", DatapackHelp);
      t := stream.Next();
      var name :- t.ExpectIdent("expected datapack name", DatapackHelp);
      t := stream.Next();
      var semi :- t.ExpectSepW(';', "expected semi-colon to finish statement", None);
      ghost var c3 := stream.index;
      ghost var c := stream.index;
      var functions: seq<Function> := [];
      var next := stream.Next();
      assert ParseItems(ts, c).Ok? ==> [] + ParseItems(ts, c).value.value == ParseItems(ts, c).value.value;
      while !next.End?
        invariant stream.Valid() && stream.tokens == ts && c < |ts|
        invariant next == ts[c] && stream.index == Step(ts, c)
        invariant ParseItems(ts, c3) == WithFunctions(functions, ParseItems(ts, c))
        decreases |ts| - c
      {
        var ident :- next.ExpectIdent("expected item declaration", None);
        if ident.value != "function" {
          return Err(Error(ident.scope, ErrorInfo(ident.value, "expected top-level item declaration", None, None)));
        }
        var f :- ParseFunction(next.scope.start);
        ParseItemsFunction(ts, c, functions);
        functions := functions + [f];
        c := stream.index;
        next := stream.Next();
      }
      assert functions + [] == functions;
      return Ok(Datapack(name, functions));
    }

    /**
     * `parse_function`, called just past the `function` keyword: the
     * result and the new stream position are those of `ParseFunctionFrom`.
     */
    method ParseFunction(start: nat) returns (r: CompileResult<Function>)
      requires Valid()
      modifies stream
      ensures Valid()
      ensures var spec := ParseFunctionFrom(stream.tokens, old(stream.index), start);
        (r.Ok? <==> spec.Ok?)
        && (r.Ok? ==> r.value == spec.value.value && stream.index == spec.value.cursor)
        && (r.Err? ==> r.err == spec.err)
    {
      ghost var ts := stream.tokens;
      ghost var c := stream.index;
      var t := stream.Next();
      var name :- t.ExpectIdent("expected identifier for function name", None);
      var args: Option<FunctionArgs> := None;
      var at: Option<At> := None;
      ghost var p := stream.index;
      var next := stream.Next();
      if next.Group? && next.delimiter == Parentheses {
        var scanned :- ScanArgs(next);
        args := Some(scanned);
        p := stream.index;
        next := stream.Next();
      }
      assert ArgsPart(ts, Step(ts, c)) == Ok(Consumed(args, p));
      if next.AsIdentW("at").Some? {
        var ident := next;
        ghost var ap := p;
        var locToken := stream.Next();
        var loc :- ExpectLoc(locToken, LocPointer, None);
        if ident.scope.file != locToken.scope.file {
          return Err(Panic("assertion `left == right` failed"));
        }
        var locIdent: IdentTok := locToken;
        at := Some(At(ident.scope.Join(locToken.scope), ident, loc, locIdent));
        p := stream.index;
        next := stream.Next();
        assert AtPart(ts, ap) == Ok(Consumed(at, p));
      }
      var block :- next.ExpectGroupW(CurlyBrackets, "expected (), `at`, or {}", None);
      var statements :- ParseFunctionBlock(block);
      return Ok(Function(SrcScope(start, block.scope.end, block.scope.file), block, name, args, at, statements));
    }

    /** `parse_function_block`: an empty body has no statements. */
    method ParseFunctionBlock(block: GroupTok) returns (r: CompileResult<seq<Statement>>)
      ensures r == FunctionBlock(block)
    {
      var ok :- StreamCheck(block.tokens);
      var tokens := new TokenStream(block.tokens);
      var next := tokens.Next();
      if !next.End? {
        return Err(Diverges(block.scope));
      }
      return Ok([]);
    }
  }

  /**
   * The argument loop of `parse_function` over a parenthesised group's own
   * stream, up to its first `End`.
   */
  method ScanArgs(g: GroupTok) returns (r: CompileResult<FunctionArgs>)
    ensures r == ArgsOf(g)
  {
    var ok :- StreamCheck(g.tokens);
    var tokens := new TokenStream(g.tokens);
    ghost var ts := g.tokens;
    var input: seq<IdentTok> := [];
    var output: seq<IdentTok> := [];
    var arrow: Option<SymbolTok> := None;
    var colon: Option<SepTok> := None;
    var objective: Option<IdentTok> := None;
    while true
      invariant tokens.Valid() && tokens.tokens == ts
      invariant tokens.index <= FirstEnd(ts, 0)
      invariant ScanFold(ts[..tokens.index], NoArgs) == Ok(ArgScan(input, arrow, output, colon, objective))
      decreases |ts| - tokens.index
    {
      ghost var before := ArgScan(input, arrow, output, colon, objective);
      ghost var i := tokens.index;
      var next := tokens.Next();
      if next.End? {
        break;
      }
      assert tokens.index == i + 1 && ts[i] == next;
      assert ts[..i + 1] == ts[..i] + [next];
      ScanFoldSnoc(ts[..i], next, NoArgs);
      if next.Ident? {
        if colon.Some? {
          if objective.Some? {
            assert ScanFold(ts[..i + 1], NoArgs) == Err(ObjectivePanic);
            assert i < FirstEnd(ts, 0);
            ScanFailsBeforeEnd(ts, i + 1);
            return Err(ObjectivePanic);
          }
          objective := Some(next);
        } else if arrow.Some? {
          output := output + [next];
        } else {
          input := input + [next];
        }
      }
      if next.AsSymbolW("->").Some? {
        arrow := next.AsSymbolW("->");
      }
      if next.AsSepW(':').Some? {
        colon := next.AsSepW(':');
      }
      assert ScanArg(before, next) == Ok(ArgScan(input, arrow, output, colon, objective));
    }
    assert FirstEnd(ts, 0) == tokens.index;
    return Ok(FunctionArgs(g, input, arrow, output, colon, objective));
  }

  // ---------------------------------------------------------------------
  // Token list helpers

  /** `display_tokens`: every token's rendering, each followed by `sep`. */
  method DisplayTokens(tokens: seq<Token>, sep: string) returns (s: string)
    ensures s == DisplayEach(tokens, sep)
  {
    s := "";
    for i := 0 to |tokens|
      invariant s == DisplayEach(tokens[..i], sep)
    {
      assert tokens[..i + 1][..i] == tokens[..i];
      s := s + Display(tokens[i]) + sep;
    }
    assert tokens[..|tokens|] == tokens;
  }

  /** The splitting loop's state: finished parts, the current part, and the separators dropped. */
  datatype SplitState = SplitState(parts: seq<seq<Token>>, current: seq<Token>, drops: seq<Token>)

  /** `t` is the separator `sep`. */
  predicate IsSepOf(t: Token, sep: char) {
    t.Sep? && t.ch == sep
  }

  /**
   * One token of `sep_tokens`: a `sep` separator ends a non-empty current
   * part and is dropped; anything else (including a `sep` with nothing
   * before it) joins the current part.
   */
  function SplitStep(st: SplitState, t: Token, sep: char): SplitState {
    if IsSepOf(t, sep) && st.current != [] then SplitState(st.parts + [st.current], [], st.drops + [t])
    else st.(current := st.current + [t])
  }

  function SplitPrefix(ts: seq<Token>, sep: char): SplitState
    decreases |ts|
  {
    if ts == [] then SplitState([], [], [])
    else SplitStep(SplitPrefix(ts[..|ts| - 1], sep), ts[|ts| - 1], sep)
  }

  /** `sep_tokens`: the parts, the unfinished last part included when non-empty. */
  function SepSplit(ts: seq<Token>, sep: char): seq<seq<Token>> {
    var st := SplitPrefix(ts, sep);
    if st.current != [] then st.parts + [st.current] else st.parts
  }

  /** Each part followed by the separator dropped after it. */
  function Rejoin(parts: seq<seq<Token>>, drops: seq<Token>): seq<Token>
    requires |parts| == |drops|
    decreases |parts|
  {
    if parts == [] then []
    else Rejoin(parts[..|parts| - 1], drops[..|drops| - 1]) + parts[|parts| - 1] + [drops[|drops| - 1]]
  }

  /** A part holds `sep` at most as its first token. */
  predicate PartShape(part: seq<Token>, sep: char) {
    forall j :: 0 < j < |part| ==> !IsSepOf(part[j], sep)
  }

  /**
   * What the splitting loop keeps true of its state after reading `ts`:
   * the parts interleaved with the dropped separators, then the current
   * part, give back `ts`; every finished part is non-empty; a part holds
   * `sep` only as its first token; every dropped token is `sep`.
   */
  predicate SplitInv(st: SplitState, ts: seq<Token>, sep: char) {
    |st.parts| == |st.drops|
    && Rejoin(st.parts, st.drops) + st.current == ts
    && (forall k :: 0 <= k < |st.parts| ==> st.parts[k] != [] && PartShape(st.parts[k], sep))
    && PartShape(st.current, sep)
    && (forall k :: 0 <= k < |st.drops| ==> IsSepOf(st.drops[k], sep))
  }

  lemma SplitStepSound(st: SplitState, ts: seq<Token>, t: Token, sep: char)
    requires SplitInv(st, ts, sep)
    ensures SplitInv(SplitStep(st, t, sep), ts + [t], sep)
  {
    var st2 := SplitStep(st, t, sep);
    if IsSepOf(t, sep) && st.current != [] {
      assert st2.parts[..|st2.parts| - 1] == st.parts && st2.drops[..|st2.drops| - 1] == st.drops;
      assert Rejoin(st2.parts, st2.drops) == Rejoin(st.parts, st.drops) + st.current + [t];
      assert Rejoin(st2.parts, st2.drops) + [] == ts + [t];
      assert forall k :: 0 <= k < |st.parts| ==> st2.parts[k] == st.parts[k];
    } else {
      assert Rejoin(st.parts, st.drops) + (st.current + [t]) == ts + [t];
      if st.current == [] {
        assert st2.current == [t];
      } else {
        assert !IsSepOf(t, sep);
      }
    }
  }

  /** Splitting loses nothing and keeps the parts' shape. */
  lemma {:induction false} SplitPrefixSound(ts: seq<Token>, sep: char)
    ensures SplitInv(SplitPrefix(ts, sep), ts, sep)
    decreases |ts|
  {
    if ts != [] {
      var ts' := ts[..|ts| - 1];
      SplitPrefixSound(ts', sep);
      SplitStepSound(SplitPrefix(ts', sep), ts', ts[|ts| - 1], sep);
      assert ts' + [ts[|ts| - 1]] == ts;
    }
  }

  /** The parts `sep_tokens` returns are non-empty, hold `sep` only first, and with the dropped separators make up the input. */
  lemma SepSplitSound(ts: seq<Token>, sep: char)
    ensures var st := SplitPrefix(ts, sep);
      var parts := SepSplit(ts, sep);
      |st.parts| == |st.drops|
      && (forall k :: 0 <= k < |st.drops| ==> IsSepOf(st.drops[k], sep))
      && (forall k :: 0 <= k < |parts| ==> parts[k] != [] && PartShape(parts[k], sep))
      && (st.current == [] ==> parts == st.parts && Rejoin(parts, st.drops) == ts)
      && (st.current != [] ==> parts == st.parts + [st.current] && Rejoin(st.parts, st.drops) + parts[|parts| - 1] == ts)
  {
    SplitPrefixSound(ts, sep);
    var st := SplitPrefix(ts, sep);
    if st.current == [] {
      assert Rejoin(st.parts, st.drops) + [] == Rejoin(st.parts, st.drops);
    }
  }

  /** `sep_tokens` as a loop over the tokens. */
  method SepTokens(tokens: seq<Token>, sep: char) returns (parts: seq<seq<Token>>)
    ensures parts == SepSplit(tokens, sep)
  {
    parts := [];
    var current: seq<Token> := [];
    ghost var drops: seq<Token> := [];
    for i := 0 to |tokens|
      invariant SplitPrefix(tokens[..i], sep) == SplitState(parts, current, drops)
    {
      assert tokens[..i + 1][..i] == tokens[..i];
      var t := tokens[i];
      if t.Sep? && t.ch == sep && current != [] {
        parts := parts + [current];
        current := [];
        drops := drops + [t];
      } else {
        current := current + [t];
      }
    }
    assert tokens[..|tokens|] == tokens;
    if current != [] {
      parts := parts + [current];
    }
  }
}
