# PackLang front end

This project models the front end of the PackLang datapack compiler. The front end has these parts:

- a file registry with line lookups;
- source spans (`SrcScope`) and their line lists;
- the token type with its accessors and expectations;
- a character-level lexer that nests bracketed tokens into `Group`s;
- a token cursor that sticks on the final `End`;
- a recursive-descent parser for `datapack <name>;` followed by `function` items;
- the diagnostic renderer that draws excerpts with gutters and underlines.

The repository also has a second, alternate version of the token API and the cursor (`src/lexer/`). It is modelled too, over the same token datatype.

Each module follows one source file:

| module | file | form |
|---|---|---|
| `Files` | `src/compiler/files.rs` | class `FileManager` (append-only registry), `FileRef` handle, line functions |
| `Spans` | `SrcScope` in `src/compiler/tokens.rs` (identical copy in `src/lexer/tokens.rs`) | datatype with `Join`, `Len` and the `Lines` loop |
| `Errors` | `src/debug/errors.rs` | `CompileErr`/`CompileResult`, `DebugLine`, class `DebugLines`, excerpt building |
| `Tokens` | `src/compiler/tokens.rs` | `Token` datatype, `as_*`/`expect_*`, display |
| `TokenStreams` | `src/compiler/token_stream.rs` | class `TokenStream` |
| `Lexing` | `src/compiler/lexer.rs` | specification functions and class `Lexer` proved against them |
| `Parsing` | `src/compiler/parser.rs` | specification functions and class `Parser` proved against them |
| `AltTokens` | `src/lexer/tokens.rs` | the alternate expectations and the `Debug` renderings |
| `AltTokenStreams` | `src/lexer/token_stream.rs` | class `TokenIter`, `iter_tokens`, `traverse_tokens` over an array |

These choices hold across the whole model:

- **Registry.** The global file registry is an explicit `FileManager` object, passed to whatever reads a file.
- **Errors are values.**
  - A fatal error is an `Err` value, and `.fatal()` / `.unwrap()` are Dafny's `:-` on `CompileResult`.
  - A Rust panic (`assert!`, an underflowing subtraction, `expect`) is the extra variant `CompileErr.Panic`, carrying the message Rust prints.
  - The endless loop of `parse_function_block` on a non-empty body is the extra variant `CompileErr.Diverges`.
- **Diagnostics.** An error keeps its structured diagnostic (scope and `ErrorInfo`), and `CompileErr.Msg` / `CreateError` render it on demand from the registry. The source renders eagerly when the error is built. The registry only ever grows, so both give the same text.
- **Integers.** Integers are unbounded. The lexer's `i32` range check is explicit, and so is every `usize` subtraction that can underflow.
- **Byte widths.** Scope widths of symbols, integers and identifiers use the UTF-8 byte length of the text, as `String::len` does.
- **Character classes.** The whitespace test is Unicode White_Space. The alphabetic test covers ASCII letters only (see Left out).

## Model

| member | source | states |
|---|---|---|
| Files.FileManager.constructor | src/compiler/files.rs:12-17 | the registry starts with no paths and no sources |
| Files.FileManager.LoadFileSrc | src/compiler/files.rs:24-28 | appends exactly one path and one source; every handle valid before stays valid and names the same text; the new handle is valid |
| Files.FileManager.RefFile | src/compiler/files.rs:33-37 | a handle exists iff the index is below the number of loaded files, and it names that index |
| Files.FileRef.LineSource | src/compiler/files.rs:49-59 | the loop returns `LineText`: the characters of zero-based line `n` up to its '\n', empty for a line past the end |
| Files.FileRef.GetLinePos | src/compiler/files.rs:60-67 | the loop returns `LineStart`: the least index with `n` newlines before it, and none (the source's panic) when no character starts line `n` |
| Files.NewlinesMonotone | src/compiler/files.rs:60-67 | the newline count before an index grows by at most one per character |
| Files.LineStart | src/compiler/files.rs:60-67 | a result is in the text, has exactly `n` newlines before it and is the least such index; none iff no index qualifies |
| Files.CollectedIsLineText | src/compiler/files.rs:49-67 | the characters `line_source` collects are those from `get_line_pos(n)` up to the next '\n' or the end |
| Files.CollectedNoLine | src/compiler/files.rs:49-59 | when no character starts line `n`, `line_source` keeps nothing |
| Files.CollectedOnLine | src/compiler/files.rs:49-59 | by index `i` the loop has kept the part of line `n` before `i`: nothing before the line's start, all of it once past its end |
| Files.CollectedOnLineStep | src/compiler/files.rs:53-57 | one turn keeps the character iff it lies between the line's start and its '\n' |
| Files.LinePastEndIsEmpty | src/compiler/files.rs:49-67 | a line number beyond the last line has no start and an empty text |
| Files.TrailingNewlineLineHasNoStart | src/compiler/files.rs:60-67 | after a final '\n' the empty last line has no start, while line 0 of a non-empty text starts at 0 |
| Spans.SrcScope.Join | src/compiler/tokens.rs:405-412 | same file required; start from the left operand, end from the right, file unchanged; the result covers both operands when they are in order |
| Spans.SrcScope.Len | src/compiler/tokens.rs:431-433 | `start + len == end`, defined only when `start <= end` |
| Spans.SrcScope.Lines | src/compiler/tokens.rs:414-430 | the loop returns `LinesOf` on the file's text |
| Spans.LinesOf | src/compiler/tokens.rs:414-430 | non-empty iff `start < end` and `start` is inside the text; its first entry is the newline count before `start` |
| Spans.LinesOfCount | src/compiler/tokens.rs:414-430 | the list has one entry plus one per '\n' strictly after `start` and before `end` |
| Spans.LinesOfConsecutive | src/compiler/tokens.rs:414-430 | when `start` is not itself a '\n', the entries are consecutive line numbers |
| Spans.CoveredLines | src/debug/errors.rs:112-155 | the lines an excerpt shows: non-empty iff the scope is non-empty and starts inside the text, first entry the line of `start` |
| Spans.CoveredLinesTrimmed | src/debug/errors.rs:112-155 | the corrected list is the `lines()` list less its last entry exactly when the scope's last character is a '\n' after `start`, and equal to it otherwise |
| Spans.CoveredLinesConsecutive | src/debug/errors.rs:112-155 | when `start` is not a '\n', the corrected list runs without gaps from the line of `start` to the line of the scope's last character |
| Spans.CoveredLinesSingle | src/debug/errors.rs:122-136 | exactly one line is covered iff no '\n' lies strictly between `start` and the scope's last character |
| Spans.CoveredLinesHaveStarts | src/debug/errors.rs:112-155 | every covered line has a first character (so `get_line_pos` cannot fail on it), and the first one starts at or before `start` |
| Spans.CoveredLineHasStart | src/debug/errors.rs:112-155 | a covered line after the first starts at a character inside the scope |
| Spans.OffsetOfLine | src/compiler/files.rs:60-67 | between two offsets, every intermediate newline count is reached at some offset |
| Errors.CompileErr.Msg | src/debug/errors.rs:24-34 | an error or a warning renders as its report; a panic as its message |
| Errors.DebugLine.Gutter | src/debug/errors.rs:207-219 | the 1-based line number, in decimal without a leading zero, for source lines; "" for underline and blank lines; "..." for a skip; none for text, file and empty lines |
| Errors.UnderlineText | src/debug/errors.rs:227-236 | `offset` spaces, `len` copies of the underline character, a space, then the message |
| Errors.FmtGutter | src/debug/errors.rs:196-205 | the gutter text right-aligned to the gutter width, followed by " \| "; the padding never underflows |
| Errors.GutterWidth | src/debug/errors.rs:304-313 | at least every present gutter's length |
| Errors.GutterWidthAttained | src/debug/errors.rs:304-313 | a non-zero width is the gutter length of one of the lines, so the maximum is attained |
| Errors.GutterWidthPrefix | src/debug/errors.rs:304-313 | one more line widens the gutter to that line's gutter exactly when it is wider |
| Errors.RenderLineCount | src/debug/errors.rs:289-303 | the rendering holds exactly one '\n' per debug line |
| Errors.DebugLines.constructor | src/debug/errors.rs:268-270 | a new line list is empty |
| Errors.DebugLines.PushLine | src/debug/errors.rs:271-273 | appends exactly the given line |
| Errors.DebugLines.AddHelp | src/debug/errors.rs:274-287 | appends exactly text, the source line at `help.line`, then a blank line |
| Errors.DebugLines.GutterSize | src/debug/errors.rs:304-313 | the running-maximum loop returns `GutterWidth` of the lines |
| Errors.DebugLines.Fmt | src/debug/errors.rs:289-303 | the loop returns every line rendered in order with the gutter width `GutterWidth` |
| Errors.ExcerptHeader | src/debug/errors.rs:112-120 | the excerpt opens with the header naming the line of `start` and the column `start - get_line_pos(line)`, which cannot underflow |
| Errors.LineStartBefore | src/debug/errors.rs:112-120 | the line holding `start` begins at or before it, at offset 0 or right after a '\n', with no '\n' in between, so the column counts characters of that line |
| Errors.ExcerptShape | src/debug/errors.rs:112-155 | a file header; then one source line plus an underline at the column with the scope's length, or one grouped line per covered line plus a grouped underline from 0 to the scope's end on the last line |
| Errors.DebugLine.Fmt | src/debug/errors.rs:221-259 | skip, blank and empty lines have an empty body; grouped lines start with the "\| " bar (the other kinds' shapes are `FmtShape`) |
| Errors.ExcerptAsWritten | src/debug/errors.rs:112-155 | the excerpt as the source computes it from `lines()`: missing (the panic) exactly when several lines are listed and the last has no first character; otherwise at least three lines opening with the file header at the line of `start` |
| Errors.ExcerptAsWrittenAgrees | src/debug/errors.rs:112-155 | where the scope's last character is not a '\n' after `start`, the source's excerpt exists and equals the corrected one |
| Errors.FinalEndRenders | src/debug/errors.rs:112-155 | the final `End` of a file ending in '\n' has a one-line list and renders as written, equal to the corrected excerpt |
| Errors.TrailingNewlineSpanFails | src/debug/errors.rs:112-155 | as written, a scope that starts before the file's final '\n' and ends with it asks `get_line_pos` for a line with no first character, so the excerpt fails |
| Errors.UnterminatedStringExample | src/debug/errors.rs:112-155 | the unterminated string `"ab` followed by '\n' at the end of a file is such a scope |
| Errors.UnderlineScope | src/debug/errors.rs:105-156 | appends exactly the excerpt for the scope, over the corrected line list |
| Errors.UnderlineSingle | src/debug/errors.rs:116-136 | appends exactly the header, the one source line and an underline at the scope's column with the scope's length |
| Errors.UnderlineGrouped | src/debug/errors.rs:116-155 | the file header (lines 116-120) and then the multi-line branch (lines 137-155): appends exactly the header, one grouped source line per covered line in order, and a grouped underline from the last line's start to the scope's end |
| Errors.PushGroupedSources | src/debug/errors.rs:138-145 | appends one grouped source line per entry, in order, each with that line's text |
| Errors.CoveredScopeLines | src/debug/errors.rs:112-113 | returns the corrected line list `CoveredLines` of the scope |
| Errors.CreateError | src/debug/errors.rs:69-103 | returns `Report`: the header (kind, cause and, if present, the context line), then the excerpt and the help lines rendered as one block |
| Errors.Report | src/debug/errors.rs:69-120 | the report properly extends its header, and right after the header it names the file, then the 1-based line and column of the scope's first character |
| Errors.ReportLines | src/debug/errors.rs:89-100 | the lines below the header open with the file header at the line of the scope's start and the column counted from that line's first character |
| Errors.RenderAppend | src/debug/errors.rs:289-303 | rendering a concatenation of line lists renders the parts one after the other |
| Errors.FmtShape | src/debug/errors.rs:221-259 | a source line's body ends with its text verbatim; grouped lines start with the "\| " bar; a file header starts with `file ` and the path; skip, blank and empty lines have no body; a text line is its text |
| Errors.UnderlineShape | src/debug/errors.rs:227-250 | an underline's body, plain or grouped, ends in `len` copies of its marker, a space and the message |
| Decimal.NatToString | src/debug/errors.rs:207-219 | a canonical decimal numeral whose value is the number |
| Decimal.CanonicalDigitsRoundTrip | src/debug/errors.rs:207-219 | reading a canonical numeral and printing it back gives the same text |
| Tokens.DelimiterCharsDistinct | src/compiler/tokens.rs:344-368 | the four opening and four closing characters each identify one delimiter |
| Tokens.Token.AsIdent | src/compiler/tokens.rs:51-93 | some iff the token is an identifier, and then the token itself (`is_ident` is `AsIdent().Some?`) |
| Tokens.Token.AsString | src/compiler/tokens.rs:51-93 | some iff the token is a string, and then the token itself |
| Tokens.Token.AsInt | src/compiler/tokens.rs:51-93 | some iff the token is an integer, and then the token itself |
| Tokens.Token.AsSep | src/compiler/tokens.rs:51-93 | some iff the token is a separator, and then the token itself |
| Tokens.Token.AsSymbol | src/compiler/tokens.rs:51-93 | some iff the token is a symbol, and then the token itself |
| Tokens.Token.AsEnd | src/compiler/tokens.rs:51-93 | some iff the token is `End`, and then the token itself |
| Tokens.Token.AsGroup | src/compiler/tokens.rs:51-93 | some iff the token is a group, and then the token itself |
| Tokens.Token.AsSymbolW | src/compiler/tokens.rs:95-99 | some iff the token is a symbol with exactly this text |
| Tokens.Token.AsSepW | src/compiler/tokens.rs:100-104 | some iff the token is this separator character |
| Tokens.Token.AsIdentW | src/compiler/tokens.rs:105-109 | some iff the token is an identifier with exactly this text |
| Tokens.Token.ExpectNonEnd | src/compiler/tokens.rs:123-128 | Ok with the token iff it is not `End`, otherwise the invalid-token error on its scope |
| Tokens.Token.ExpectIdent | src/compiler/tokens.rs:129-134 | Ok with the token iff it is an identifier, otherwise the invalid-token error on its scope |
| Tokens.Token.ExpectString | src/compiler/tokens.rs:135-140 | Ok iff a string, otherwise the invalid-token error on its scope |
| Tokens.Token.ExpectInt | src/compiler/tokens.rs:141-146 | Ok iff an integer, otherwise the invalid-token error on its scope |
| Tokens.Token.ExpectSep | src/compiler/tokens.rs:147-152 | Ok iff a separator, otherwise the invalid-token error on its scope |
| Tokens.Token.ExpectSymbol | src/compiler/tokens.rs:153-158 | Ok iff a symbol, otherwise the invalid-token error on its scope |
| Tokens.Token.ExpectEnd | src/compiler/tokens.rs:159-164 | Ok iff `End`, otherwise the invalid-token error on its scope |
| Tokens.Token.ExpectGroup | src/compiler/tokens.rs:165-170 | Ok iff a group, otherwise the invalid-token error on its scope |
| Tokens.Token.ExpectIdentW | src/compiler/tokens.rs:172-180 | Ok iff an identifier with exactly this text, otherwise an error on its scope |
| Tokens.Token.ExpectSepW | src/compiler/tokens.rs:181-189 | Ok iff this separator character, otherwise an error on its scope |
| Tokens.Token.ExpectGroupW | src/compiler/tokens.rs:190-198 | Ok iff a group with this delimiter, otherwise an error on its scope |
| Tokens.InvalidToken | src/compiler/tokens.rs:200-208 | an "invalid token" error on the token's own scope, carrying the caller's text and help |
| Tokens.Delimiter.Opening | src/compiler/tokens.rs:352-359 | the opening bracket is one of `(`, `[`, `{`, `<` |
| Tokens.Delimiter.Closing | src/compiler/tokens.rs:352-367 | the closing bracket is one of `)`, `]`, `}`, `>`, and with the opening bracket it forms one of the fixed pairs `()`, `[]`, `{}`, `<>` |
| Tokens.Display | src/compiler/tokens.rs:210-340 | a token's rendering is never empty (its shape per kind is `DisplayShape`) |
| Tokens.DisplayShape | src/compiler/tokens.rs:210-340 | a display is never empty and its first character tells the kind: backquotes around words, separators and symbols, double quotes around strings, the decimal value (with '-' iff negative) for integers, and the group's own brackets around a group |
| Tokens.DisplayEachAppend | src/compiler/tokens.rs:376-386 | displaying a concatenation displays its parts one after the other |
| Tokens.GroupDisplay | src/compiler/tokens.rs:376-386 | the loop returns the opening character, each inner token's display followed by a space, then the closing character |
| TokenStreams.StreamCheck | src/compiler/token_stream.rs:12-15 | accepted iff the list is non-empty and ends with `End`; each failed assertion is the panic with its own message |
| TokenStreams.AdvanceSticky | src/compiler/token_stream.rs:31-35 | once on `End`, any number of `next` calls leave the index unchanged |
| TokenStreams.AdvanceClamped | src/compiler/token_stream.rs:31-35 | `k` calls of `next` move `k` places but never past the final `End` |
| TokenStreams.TokenStream.constructor | src/compiler/token_stream.rs:12-20 | requires a non-empty list ending in `End`; index 0, no saved index |
| TokenStreams.TokenStream.Current | src/compiler/token_stream.rs:28-30 | the token at the index, which is `End` at the last position |
| TokenStreams.TokenStream.Next | src/compiler/token_stream.rs:31-35 | returns the current token; advances by one unless it is `End`; `index < \|tokens\|` kept; the save slot and the list unchanged |
| TokenStreams.TokenStream.Save | src/compiler/token_stream.rs:21-23 | overwrites the single slot with the current index |
| TokenStreams.TokenStream.LoadSave | src/compiler/token_stream.rs:24-26 | restores the saved index iff one was saved; otherwise the "no saved index" panic, cursor unchanged |
| Lexing.DelimiterOf | src/compiler/lexer.rs:190-198 | a delimiter iff the character is one of the four opening brackets |
| Lexing.DelimiterOfOpening | src/compiler/lexer.rs:190-198 | `delimiter` is the inverse of `Delimiter::opening` |
| Lexing.CharClasses | src/compiler/lexer.rs:172-210 | `<` and `>` are the only characters both symbols and brackets; a separator is in no other class; whitespace, separators, symbols and brackets never start an identifier; every identifier character continues an integer literal; digits continue identifiers but do not start them |
| Lexing.BracketClasses | src/compiler/lexer.rs:186-198 | both brackets of every group kind are delimiter characters, and `delimiter` maps the opening one back to its kind and the closing one to none |
| Lexing.ParseDigitsFromSpec | src/compiler/lexer.rs:91-100 | the digit parse succeeds iff the text is all digits with value at most `i32::MAX`, and then gives that value |
| Lexing.ParseI32Spec | src/compiler/lexer.rs:91-100 | an integer literal parses iff it is all digits within the `i32` range |
| Lexing.IndexOf | src/compiler/lexer.rs:37-60 | the first position holding the character, or none iff no later position holds it |
| Lexing.RunEnd | src/compiler/lexer.rs:68-114 | the end of the longest run of characters with the property |
| Lexing.LenScope | src/compiler/lexer.rs:164-169 | the `len` characters before the index; the subtraction panics iff `len` exceeds the index |
| Lexing.LexStringOutcome | src/compiler/lexer.rs:37-60 | Ok iff a closing quote follows; the value is exactly the characters between the quotes, the scope runs from the opening quote through the closing one; otherwise "missing closing quote" from the opening quote to the end of input |
| Lexing.LexSepOutcome | src/compiler/lexer.rs:61-67 | each of `, : @ ; \|` is one separator token of width 1 |
| Lexing.LexSymbolOutcome | src/compiler/lexer.rs:68-80 | a symbol token is the maximal run of symbol characters, with exactly that run as its scope |
| Lexing.LexAngleIsSymbol | src/compiler/lexer.rs:68-80 | `<` and `>` lex as symbols, never as a group |
| Lexing.LexNumberOutcome | src/compiler/lexer.rs:81-101 | the run up to a separating character; Ok iff it is all digits within the `i32` range, with that value; otherwise "invalid integer literal" |
| Lexing.LexIdentOutcome | src/compiler/lexer.rs:102-114 | an identifier is the maximal run of letters, `_` and digits after its first character |
| Lexing.LexWhitespaceOutcome | src/compiler/lexer.rs:115-118 | whitespace yields no token and moves one character on |
| Lexing.LexGroupOutcome | src/compiler/lexer.rs:120-132 | Ok iff the inner loop reaches the closing bracket; the group's tokens end with an `End` on the closing bracket and its scope runs from the opening bracket through it |
| Lexing.LexGroupCloses | src/compiler/lexer.rs:120-131 | a group that lexes ends just past its closing bracket, so its scope runs through that bracket |
| Lexing.LexGroupUnclosed | src/compiler/lexer.rs:122-128 | when the input ends inside the group (and nothing failed first), "missing closing delimiter" on the opening bracket |
| Lexing.LexOpensGroup | src/compiler/lexer.rs:120-122 | `(`, `{` and `[` take the group branch of `next`, with their own delimiter |
| Lexing.LexSeqCloser | src/compiler/lexer.rs:142-162 | inside a group the loop ends just past the first matching closer reached at its own level |
| Lexing.LexSeqAtCloser | src/compiler/lexer.rs:150-154 | meeting the closer ends the group loop one past it, keeping exactly the tokens gathered so far |
| Lexing.LexSeqStep | src/compiler/lexer.rs:155-157 | one turn of the loop puts the token `next` yields (if any) in front of the rest of the loop |
| Lexing.LexSeqFails | src/compiler/lexer.rs:155-157 | when `next` fails inside the loop, the whole loop fails with that error |
| Lexing.RunEndUnique | src/compiler/lexer.rs:68-114 | a run's end is unique: any index with the two end properties is `RunEnd` |
| Lexing.LexIllegalOutcome | src/compiler/lexer.rs:134-139 | any other character, a stray closer included, is an "illegal character" error on that character |
| Lexing.LexOneShape | src/compiler/lexer.rs:35-140 | every branch of `next` moves the index forward, within the input, and never yields `End` |
| Lexing.LexSeqShape | src/compiler/lexer.rs:21-33 | the lexing loop's tokens are well formed, in order and carry no `End` |
| Lexing.LexedTokensWellFormed | src/compiler/lexer.rs:142-162 | every group the lexer builds has exactly one `End`, as its last inner token |
| Lexing.LexFileShape | src/compiler/lexer.rs:21-33 | a lexed file has `End` only last, with scope `[n-1, n)`; every token is well formed and in order |
| Lexing.ArrowIsOneSymbol | src/compiler/lexer.rs:68-80 | `->` lexes as the single symbol `"->"` followed by `End` |
| Lexing.LexEmptyFile | src/compiler/lexer.rs:31 | lexing an empty file underflows when placing the final `End` |
| Lexing.Lexer.constructor | src/compiler/lexer.rs:12-19 | the file's characters, index 0 |
| Lexing.Lexer.Lex | src/compiler/lexer.rs:21-33 | the loop returns `LexFrom`: the tokens of `LexSeq` then the final `End` |
| Lexing.Lexer.Next | src/compiler/lexer.rs:35-140 | the result and the new index are those of `LexOne` |
| Lexing.Lexer.NextString | src/compiler/lexer.rs:37-60 | the character loop gives `LexString`'s result and index |
| Lexing.Lexer.NextSymbol | src/compiler/lexer.rs:68-80 | the character loop gives `LexSymbol`'s result and index |
| Lexing.Lexer.NextNumber | src/compiler/lexer.rs:81-101 | the character loop gives `LexNumber`'s result and index |
| Lexing.Lexer.NextIdent | src/compiler/lexer.rs:102-114 | the character loop gives `LexIdent`'s result and index |
| Lexing.Lexer.GetGroupTokens | src/compiler/lexer.rs:142-162 | the loop gives `LexSeq` up to the closer, then an `End` on it; none when the input ends first |
| Parsing.ExpectLoc | src/compiler/parser.rs:238-255 | Ok iff an identifier naming one of the five locations, and the location's word is that identifier; otherwise "invalid location" on the token |
| Parsing.ExpectLocRoundTrip | src/compiler/parser.rs:238-255 | every location's word is read back as that location |
| Parsing.ClassifyIdent | src/compiler/parser.rs:88-100 | after `:` an identifier is the objective and a second one is the assertion panic; after `->` it is an output; otherwise an input |
| Parsing.ScanArg | src/compiler/parser.rs:85-103 | a non-identifier changes no list; `->` records the arrow, `:` the colon |
| Parsing.ScanFoldAppend | src/compiler/parser.rs:85-103 | scanning a concatenation scans its parts in turn, keeping a failure |
| Parsing.ScanPlain | src/compiler/parser.rs:85-103 | before `:`, a stretch without marks appends its identifiers, in order, to the inputs or (after `->`) to the outputs |
| Parsing.ScanFailsBeforeEnd | src/compiler/parser.rs:89-90 | a second objective ends the argument loop with that panic, whatever tokens follow before `End` |
| Parsing.ScanObjective | src/compiler/parser.rs:85-103 | after `:`, one identifier becomes the objective and a second one panics |
| Parsing.ArgsGrammar | src/compiler/parser.rs:85-103 | `a -> b : c` scans to inputs `a`, outputs `b` and objective `c`, in order |
| Parsing.ScanThroughArrow | src/compiler/parser.rs:85-103 | inputs, `->` and outputs scan to those two identifier lists with the arrow recorded |
| Parsing.SecondObjectivePanics | src/compiler/parser.rs:85-103 | two identifiers after `:` trip the `objective.is_none()` assertion |
| Parsing.FirstEnd | src/compiler/parser.rs:85-87 | the first `End` from a position, with no `End` before it |
| Parsing.ArgsPart | src/compiler/parser.rs:73-111 | any token but a parenthesised group is left in place with no arguments; a parenthesised group is taken and read by `ArgsOf`, whose error is the result's error |
| Parsing.AtPart | src/compiler/parser.rs:112-128 | any token but the word `at` is left in place with no modifier; after `at`, a token that is not a location word is the `expect_loc` error, a location word in another file is the assertion panic of `join`, and otherwise both tokens are taken: the modifier holds `at`, the location and its word, and its scope is `at` joined with that word in the same file |
| Parsing.FunctionBlock | src/compiler/parser.rs:147-157 | no statements iff the body holds only its `End`; otherwise the endless loop |
| Parsing.ParseFunctionFrom | src/compiler/parser.rs:64-145 | the name is the next token, the body is a curly group without statements, and the scope runs from the `function` keyword through the body |
| Parsing.ParseItems | src/compiler/parser.rs:41-61 | `End` ends the loop with no items; a token that is not an identifier is the `expected item declaration` error, an identifier other than `function` the `expected top-level item declaration` error on that word; on success the loop rests on `End` and every function has a curly body without statements |
| Parsing.ParseFrom | src/compiler/parser.rs:14-62 | a first token other than `datapack` is the `expected datapack declaration` error, a missing name the `expected datapack name` error; a datapack is only returned after `datapack`, a name and `;`, is named by that name and holds the functions the item loop returns |
| Parsing.ParseNeedsHeader | src/compiler/parser.rs:14-37 | a successful parse began with `datapack`, a name and `;`, and the datapack takes that name |
| Parsing.HeaderOnly | src/compiler/parser.rs:14-62 | a header followed by `End` is a datapack without functions |
| Parsing.ParseItemsFunction | src/compiler/parser.rs:41-61 | a `function` item is parsed, then the remaining items follow it in source order |
| Parsing.Parser.constructor | src/compiler/parser.rs:9-13 | a stream at the start of the tokens |
| Parsing.Parser.Parse | src/compiler/parser.rs:14-62 | the loop returns `ParseFrom` from the current position; on success the stream rests on `End` |
| Parsing.Parser.ParseFunction | src/compiler/parser.rs:64-145 | the result and the new stream position are those of `ParseFunctionFrom` |
| Parsing.Parser.ParseFunctionBlock | src/compiler/parser.rs:147-157 | returns `FunctionBlock` of the body |
| Parsing.ScanArgs | src/compiler/parser.rs:85-103 | the argument loop returns `ArgsOf`: the scan of the group's tokens before its first `End` |
| Parsing.DisplayTokens | src/compiler/parser.rs:258-265 | every token's display, each followed by the separator |
| Tokens.DisplayEachShape | src/compiler/parser.rs:258-265 | the rendering is empty exactly for no tokens, and otherwise ends with the separator |
| Parsing.SplitStepSound | src/compiler/parser.rs:266-282 | one token of `sep_tokens` keeps the splitting invariant |
| Parsing.SplitPrefixSound | src/compiler/parser.rs:266-282 | the splitting invariant holds after every prefix |
| Parsing.SepSplitSound | src/compiler/parser.rs:266-282 | every part is non-empty and holds the separator only as its first token; the parts with the dropped separators re-inserted give back the input |
| Parsing.SepTokens | src/compiler/parser.rs:266-282 | the loop returns `SepSplit` |
| AltTokens.EscapeChar | src/lexer/tokens.rs:234-302 | one or two characters; two exactly when it is a backslash escape, otherwise the character itself |
| AltTokens.UnescapeEscaped | src/lexer/tokens.rs:234-302 | reading escapes back recovers the original text |
| AltTokens.DebugFmt | src/lexer/tokens.rs:215-302 | `Ident("…")`, `Str("…")`, `Symbol("…")` with the value escaped; likewise `Int(n)`, `Sep('c')`, `End()` and `Group<Name>(...)` |
| AltTokens.DebugFmtRecoversValue | src/lexer/tokens.rs:234-302 | the value of an identifier, string or symbol is recovered from its debug rendering |
| AltTokens.DebugCharRecovers | src/lexer/tokens.rs:273-285 | a separator's character is recovered from its debug rendering |
| AltTokens.AsNonEnd | src/lexer/tokens.rs:72-74 | some iff the token is not `End`, and then the token itself |
| AltTokens.Invalid | src/lexer/tokens.rs:113-127 | an "Invalid token" error on the token's scope pointing out what was expected and the token's debug rendering, with the caller's context and help |
| AltTokens.ExpectNonEnd | src/lexer/tokens.rs:129-134 | Ok with the token iff not `End`, otherwise `Invalid` on it |
| AltTokens.ExpectIdent | src/lexer/tokens.rs:135-140 | Ok iff an identifier, otherwise `Invalid` on it |
| AltTokens.ExpectString | src/lexer/tokens.rs:141-146 | Ok iff a string, otherwise `Invalid` on it |
| AltTokens.ExpectInt | src/lexer/tokens.rs:147-152 | Ok iff an integer, otherwise `Invalid` on it |
| AltTokens.ExpectSep | src/lexer/tokens.rs:153-158 | Ok iff a separator, otherwise `Invalid` on it |
| AltTokens.ExpectSymbol | src/lexer/tokens.rs:159-164 | Ok iff a symbol, otherwise `Invalid` on it |
| AltTokens.ExpectEnd | src/lexer/tokens.rs:165-170 | Ok iff `End`, otherwise `Invalid` on it |
| AltTokens.ExpectGroup | src/lexer/tokens.rs:171-176 | Ok iff a group, otherwise `Invalid` on it |
| AltTokens.ExpectIdentW | src/lexer/tokens.rs:178-189 | Ok iff an identifier with exactly this text, otherwise `Invalid` naming the word |
| AltTokens.ExpectSepW | src/lexer/tokens.rs:190-201 | Ok iff this separator, otherwise `Invalid` naming it |
| AltTokens.ExpectGroupW | src/lexer/tokens.rs:202-213 | Ok iff a group with this delimiter, otherwise `Invalid` naming it |
| AltTokens.ExpectWAgreesWithAs | src/lexer/tokens.rs:97-111 | each value-checking expectation accepts exactly what the matching `as_*_w` accessor accepts |
| AltTokenStreams.PathFrom | src/lexer/token_stream.rs:51-61 | a successful read ends on `End` and keeps the first identifier |
| AltTokenStreams.PathFromWritten | src/lexer/token_stream.rs:51-61 | reading written (separator, identifier) pairs followed by `End` gives exactly those pairs, with the cursor on `End` |
| AltTokenStreams.PathFromReads | src/lexer/token_stream.rs:51-61 | a successful read consumed exactly the tokens of the pairs it returns |
| AltTokenStreams.TokenIter.constructor | src/lexer/token_stream.rs:28-34 | requires a non-empty list ending in `End`; index 0 |
| AltTokenStreams.TokenIter.Current | src/lexer/token_stream.rs:36-38 | the token at the index |
| AltTokenStreams.TokenIter.Prev | src/lexer/token_stream.rs:39-41 | the token before the index; at index 0 the subtraction panics |
| AltTokenStreams.TokenIter.Next | src/lexer/token_stream.rs:42-46 | returns the current token and advances unless it is `End` |
| AltTokenStreams.TokenIter.GetPath | src/lexer/token_stream.rs:48-62 | none iff the previous token is not an identifier; otherwise the result of `PathFrom`, cursor on `End` |
| AltTokenStreams.TokenIter.ReadParts | src/lexer/token_stream.rs:52-60 | the segment loop returns `PathFrom`'s path and leaves the cursor where it stops, or its error |
| AltTokenStreams.TokenIter.ReadPart | src/lexer/token_stream.rs:52-59 | one turn stops on `End` or reads a separator and an identifier, two places on, and `PathFrom` from there continues the path; its errors are those of `PathFrom` |
| AltTokenStreams.Visits | src/lexer/token_stream.rs:8-15 | only tokens before the final `End` are visited, never more than there are |
| AltTokenStreams.VisitsEach | src/lexer/token_stream.rs:8-15 | a callback that never advances visits every token before `End` once, in order |
| AltTokenStreams.IterTokens | src/lexer/token_stream.rs:8-15 | the loop visits exactly `Visits` |
| AltTokenStreams.Traversed | src/lexer/token_stream.rs:65-74 | top-level length kept, total size not increased |
| AltTokenStreams.TraversedIdentity | src/lexer/token_stream.rs:65-74 | traversing with the identity changes nothing |
| AltTokenStreams.TraverseTokens | src/lexer/token_stream.rs:65-74 | the array afterwards is `Traversed` of its old contents: each token rewritten, then its group's tokens, in pre-order |
| AltTokenStreams.TraverseToken | src/lexer/token_stream.rs:67-71 | one position: `f` on the token, then a group's own tokens traversed, giving `TraverseOne` |
| AltTokenStreams.TraverseOneIdentity | src/lexer/token_stream.rs:65-74 | with the identity, one position is left unchanged |

## Left out

- File I/O (`read_file`), the global `FILES` registry and its accessors, `src/main.rs`, `src/debug.rs` and the colour codes of `src/debug/bash_tools.rs` are not part of this model. The registry is an explicit `FileManager`, and colour markers are dropped from debug lines.
- Statement parsing is not written in the source. A non-empty function body makes `parse_function_block` loop forever. That body is the `Diverges` error, and no termination is claimed for it.
- Scoreboard and inline items are not modelled. The parser rejects every item except `function`, as the source does.
- Errors are rendered on demand rather than when they are built. `expect_loc` (src/compiler/parser.rs:236-253) and the `expect_*_w` functions of `src/lexer/tokens.rs` (lines 178-213) build the error before they look at the token, so they render it even when the token is accepted. The `expect_*_w` functions of `src/compiler/tokens.rs` (lines 171-199) build it only on failure. Rendering panics for a scope that ends on a file's final '\n' and starts before it (see Findings). An accepted token is an identifier, a separator or a group. Its scope ends on one of its own characters or on its closing bracket, never on a '\n', so rendering the unused error of an accepted token cannot panic, and building it eagerly has no observable effect.
- Errors.UnderlineScope: the excerpt drops the line that a '\n' at the scope's last offset opens (the corrected line list of Findings). When the scope does not start on a '\n' it shows exactly the lines that hold a character of the scope; one that starts on a '\n' skips the line that '\n' opens, as `lines()` does. This also changes the output where the source does not panic: for the text `ab`, '\n', `cd` and the scope `[0, 3)`, the source shows four lines (the file header, two grouped source lines and a zero-length grouped underline) and the model three (the file header, one source line and an underline of length 3). Only a scope ending on a '\n' that is not the file's last character shows the difference, and the lexer produces no such scope.
- `ErrorInfo` field mismatch: `src/compiler/tokens.rs` fills a `more` field that the `ErrorInfo` of `src/debug/errors.rs` does not declare. The model puts `more` in the pointer, with no context.
- Lexing.IsAlphabetic: only ASCII letters are alphabetic. Identifiers with other Unicode letters lex as illegal characters here.
- `in_num` (src/compiler/lexer.rs:202-204) is never called and is not modelled.
- Integer parsing covers the ASCII digit strings the lexer produces. A literal with a non-ASCII character fails as an invalid digit, as in Rust. The width of its error scope uses the UTF-8 byte length, as in the source.
- The alternate `SrcScope::join`/`lines`/`len` (src/lexer/tokens.rs:360-391) are the same code as the compiler version, and `Spans` models both.
- Rust's `Debug` output beyond what error pointers use is not modelled:
  - `\u{…}` escapes for non-printable and grapheme-extending characters;
  - the alternate `#` flag;
  - the full, width-less form of `Group`'s `Debug`, which lists the inner tokens.
- `parser::Path`, which `get_path` returns, is not part of this model. `AltTokenStreams.Path` is defined locally as the first identifier and its (separator, identifier) pairs.
- Errors.CreateError: `Errors.CompileErr.Msg`, `Errors.UnderlineScope` and `Errors.CreateError` require a scope with `start < end` and `start` inside the text. The source panics at `assert_ne!(lines.len(), 0)` (src/debug/errors.rs:113) for any other scope; the model states that assertion as this precondition rather than returning `Panic`. Every scope the lexer and the parser build meets it.
- Parsing.Parser.constructor requires the list to end in `End` instead of modelling the panic of `TokenStream::new`. `TokenStreams.StreamCheck` states that panic, and `Parsing.ArgsOf` uses it for a group's own stream.
- AltTokenStreams.TokenIter.constructor requires a non-empty list ending in `End` instead of modelling the panic of `TokenIter::new`.
- AltTokenStreams.IterTokens models the callback as the number of extra `next` calls it makes. A callback that moves the iterator backwards or assigns `index` directly is not modelled.
- AltTokenStreams.TraverseTokens requires a callback that never makes a token bigger. With any other callback the source may recurse forever into the groups it creates.
- Concurrency, floating point and foreign calls do not occur in the core.

## Findings

| source | as written | input that shows it | evidently intended | confidence | as-written member | corrected member |
|---|---|---|---|---|---|---|
| src/debug/errors.rs:112-155 | `underline_scope` takes `scope.lines()`, which adds a line entry for every '\n' inside the scope after `start`, including one that is the scope's last character. It then calls `get_line_pos` on the last entry, and that line has no first character when the '\n' ends the file, so `get_line_pos` panics | a file `"ab` followed by '\n': the unterminated string's error scope is `[0, 4)`, which ends with that final '\n' | drop the entry that a '\n' at the scope's last offset opens, so the excerpt ends on the line of the scope's last character | not executed | Errors.ExcerptAsWritten, Errors.TrailingNewlineSpanFails | Spans.CoveredLinesHaveStarts |
