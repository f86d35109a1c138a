# Violet compiler front end, modelled in Dafny

This project models the front end of the Violet compiler: turning a source text into a syntax
tree, and a syntax tree into a bound program. It covers these parts:

- **Text.** `SourceText`, `TextSpan` and `TextLocation`, and the
  `TextWindow` the tokenizer reads through. The window is a start and a width over the text, and
  `'\0'` is its end-of-text sentinel.
- **Tokenizer.** Each token is read with its leading and trailing trivia: whitespace, newlines,
  line and block comments. Operators, identifiers, numeric and string literals are read, and an
  unexpected character gives an `UnknownMarker` token plus a diagnostic. `SyntaxFacts` gives the
  token texts and kind classes. `StringExtensions.Unescape` is modelled too.
- **Syntax records.** Tokens, trivia and nodes, their children, spans and locations, and the
  indented text dump `Format`/`FormatTo`.
- **Parser.** Its productions: compilation unit, member, function declaration, block, statement,
  binary expression by operator precedence, primary expression and argument list. Also `Peek`,
  `Expect`, `At` and `Try`, and the diagnostics the parser reports.
- **`SyntaxTree`.** The token loop of `Parse`. As written it folds runs of `BadToken` tokens into
  skipped-text trivia; the tokenizer never produces that kind, so nothing is folded and tokens of
  unexpected characters reach the parser. The loop as evidently intended folds the `UnknownMarker`
  tokens instead (`ParseText`, see Findings). Also `ParseTokens`, and `GetParent` with its lazily
  built parent map, which as written throws when asked for the root's parent.
- **Diagnostics.** The descriptors, `DiagnosticDescriptor.Format` with its `string.Format`
  placeholders, the message text of a diagnostic, and `DiagnosticBuilder`.
- **Binding.** `BoundScope` with nested name resolution, the symbols and builtins, and the
  `Binder`. The binder declares every function of every tree, then binds each body: a block,
  expression statements, calls resolved through the scope chain, string literals, and error
  expressions when binding fails. It also finds the `Main` entry point. The project models the
  bound nodes and the `FormatTo` dumps of the bound tree and `BoundProgram`.

Every part is given as a pure specification over values: window states, lexer states, parser
states, scope frames and binding results. Where the C# code updates an object in place, there is
also a Dafny `class` with the same fields: `TextWindow`, `Tokenizer`, `Parser`, `SyntaxTree`,
`BoundScope`, `Binder`, `DiagnosticBuilder`, and the writer behind `FormatTo`. Each method is
proved to leave exactly the state that the specification function computes. Lemmas about the
specification functions state what the source promises, for example:

- the `start .. end` text of a span reads back as that span;
- each token, with its leading and trailing trivia, covers the text back to back from where reading stood to where the next reading starts;
- no parser production moves back, and each only appends diagnostics;
- the parent map holds exactly the nodes below the root;
- the nearest declaration in a scope chain wins;
- every declared function gets a bound body.

As written, the tokenizer lexes every word as an identifier: `SyntaxFacts.IsKeyword` is a stub
that answers false. `Member` therefore never sees `fun`, so a text parses only when it has no
members. `SyntaxTrees.AsWrittenHasNoMembers` states this for `Parse` as written, and
`SyntaxTrees.ParsedTextHasNoMembers` for the corrected one. The parser productions for function
declarations are still modelled and proved for token streams that contain the keyword tokens.

Exceptions and failed `Trace.Assert` calls become `Fatal` outcomes of a `Result`. A parse that
throws gives `Throws`. The one loop of the parser that can repeat without progress gives `Hangs`
(`Diverges` in `ParserSpec`).

## Model

| member | source | states |
|---|---|---|
| Strings.ReplaceChar | src/Violet.Language/Utilities/StringExtensions.cs:7-10 | one `string.Replace` of a character: a character in neither the text nor the replacement never appears; replacing `c` by a text without `c` removes every `c`; a text without `c` is returned unchanged |
| Strings.ReplaceCharAppend | src/Violet.Language/Utilities/StringExtensions.cs:7-10 | replacing a character distributes over concatenation |
| Strings.Unescape | src/Violet.Language/Utilities/StringExtensions.cs:5-11 | the result contains no raw newline, carriage return or tab |
| Strings.UnescapeAppend | src/Violet.Language/Utilities/StringExtensions.cs:5-11 | `Unescape(a + b) == Unescape(a) + Unescape(b)` |
| Strings.UnescapeOneCharacter | src/Violet.Language/Utilities/StringExtensions.cs:7-10 | a newline, carriage return and tab become backslash-n, backslash-r and backslash-t; every other character is kept |
| Strings.UnescapeIsPerCharacter | src/Violet.Language/Utilities/StringExtensions.cs:5-11 | the three chained replacements equal the independent character-by-character definition `EscapeEach` |
| Strings.UnescapeLength | src/Violet.Language/Utilities/StringExtensions.cs:7-10 | the length grows by exactly the number of newlines, carriage returns and tabs |
| Strings.UnescapeKeepsPlainText | src/Violet.Language/Utilities/StringExtensions.cs:7-10 | a text without those three characters is returned unchanged |
| Strings.UnescapeIdempotent | src/Violet.Language/Utilities/StringExtensions.cs:5-11 | unescaping twice equals unescaping once |
| Strings.NatToString | src/Violet.Language/TextLocation.cs:6 | the decimal text of a natural number is non-empty and all digits |
| Strings.NatToStringRoundTrip | src/Violet.Language/TextLocation.cs:6 | the digits read back as the number |
| Strings.IntToString | src/Violet.Language/TextLocation.cs:6 | the decimal text of an integer is non-empty |
| Strings.IntToStringRoundTrip | src/Violet.Language/TextLocation.cs:6 | the text of every integer reads back as that integer |
| Strings.ParseInt64 | src/Violet.Language/Syntax/Tokenizer.cs:301 | `long.Parse`: a parsed value lies in the signed 64-bit range |
| Strings.ParseInt64RoundTrip | src/Violet.Language/Syntax/Tokenizer.cs:301 | every 64-bit value parses back from its decimal text |
| Strings.ParseInt64Overflow | src/Violet.Language/Syntax/Tokenizer.cs:299-311 | a digit string whose value exceeds `long.MaxValue` overflows |
| Text.FromText | src/Violet.Language/SourceText.cs:18 | `SourceText.From(text)` keeps the text and has the empty file name |
| Text.FromBounds | src/Violet.Language/TextLocation.cs:8-9 | the span starts at `start` and ends at `end` |
| Text.SpanToStringRoundTrip | src/Violet.Language/TextLocation.cs:5-6 | the `"start .. end"` text of a span determines the span: it reads back as that span |
| TextWindows.ExtendedLength | src/Violet.Language/Text/TextWindow.cs:100-106 | the new end is `end + count`, or the end of the text when that is shorter, and never passes it |
| TextWindows.ScanWhile | src/Violet.Language/Text/TextWindow.cs:41-55 | the scan stops at the first position that is the end, holds `'\0'` or holds a character the predicate rejects; every character before it is accepted |
| TextWindows.ScanWhileIsFirstStop | src/Violet.Language/Text/TextWindow.cs:44-52 | any position with the first-stop property is where the scan stops |
| TextWindows.ScanWhileExtensional | src/Violet.Language/Text/TextWindow.cs:32-39 | predicates that agree on every character stop the scan at the same place (the character-list overloads) |
| TextWindows.WindowContent | src/Violet.Language/Text/TextWindow.cs:14 | the content has as many characters as the window's length |
| TextWindows.Extended | src/Violet.Language/Text/TextWindow.cs:100-106 | `Extend` keeps the start, stays inside the text and clamps the end at the end of the text |
| TextWindows.ScannedWhile | src/Violet.Language/Text/TextWindow.cs:41-55 | `NextWhile` keeps the start and ends where the scan stops |
| TextWindows.ScannedUntil | src/Violet.Language/Text/TextWindow.cs:35-36 | `NextUntil` keeps the start and stops at the first character the predicate accepts, at `'\0'` or at the end |
| TextWindows.Shrunk | src/Violet.Language/Text/TextWindow.cs:90-98 | `Back(n)` keeps the start and moves the end back by `n` |
| TextWindows.Committed | src/Violet.Language/Text/TextWindow.cs:108-112 | `Advance` starts the next, empty window at the old end |
| TextWindows.Emptied | src/Violet.Language/Text/TextWindow.cs:141-144 | `Reset` empties the window and keeps its start |
| TextWindows.WindowRight | src/Violet.Language/Text/TextWindow.cs:21-22 | `Right` is the one-character span of the last character, or the empty span at the start |
| TextWindows.TextWindow.constructor | src/Violet.Language/Text/TextWindow.cs:25-30 | a new window over the source is empty at position 0 |
| TextWindows.TextWindow.Content | src/Violet.Language/Text/TextWindow.cs:14 | the characters of the source between start and end |
| TextWindows.TextWindow.Last | src/Violet.Language/Text/TextWindow.cs:18 | the last character of the content, or `'\0'` when the window is empty |
| TextWindows.TextWindow.Location | src/Violet.Language/Text/TextWindow.cs:19-20 | the source paired with the span `(start, length)` |
| TextWindows.TextWindow.Right | src/Violet.Language/Text/TextWindow.cs:21-22 | the span of the last character, or the empty span at the start |
| TextWindows.TextWindow.Peek | src/Violet.Language/Text/TextWindow.cs:75-81 | the character `offset` places after the window, or `'\0'` at or past the end; reads only |
| TextWindows.TextWindow.Extend | src/Violet.Language/Text/TextWindow.cs:100-106 | the new state is `Extended(old state, count)` and the window stays inside the text |
| TextWindows.TextWindow.TryExtend | src/Violet.Language/Text/TextWindow.cs:64-73 | true exactly when the next character is the candidate; then the window grows by one, otherwise nothing changes |
| TextWindows.TextWindow.Next | src/Violet.Language/Text/TextWindow.cs:57-62 | returns the peeked character; at the end it returns `'\0'` and nothing changes, otherwise the content grows by that character |
| TextWindows.TextWindow.NextCount | src/Violet.Language/Text/TextWindow.cs:83-88 | `Next(count)`: the window is extended by `count` and the new content is the old content followed by the returned text |
| TextWindows.TextWindow.NextWhile | src/Violet.Language/Text/TextWindow.cs:41-55 | the loop ends in the state `ScannedWhile` describes and returns exactly the newly covered characters |
| TextWindows.TextWindow.NextUntil | src/Violet.Language/Text/TextWindow.cs:35-36 | `NextWhile` of the negated predicate: ends in the `ScannedUntil` state and returns the newly covered characters |
| TextWindows.TextWindow.Back | src/Violet.Language/Text/TextWindow.cs:90-98 | succeeds exactly when `count <= Length`, then shrinks the window by `count`; otherwise (the exception) nothing changes |
| TextWindows.TextWindow.Advance | src/Violet.Language/Text/TextWindow.cs:108-112 | the new window is empty and starts at the old end |
| TextWindows.TextWindow.Reset | src/Violet.Language/Text/TextWindow.cs:141-144 | the window is emptied and its start kept |
| TextWindows.TextWindow.AssertChar | src/Violet.Language/Text/TextWindow.cs:122-126 | the assertion result says whether the next character was `c`; one character is taken either way |
| TextWindows.TextWindow.AssertText | src/Violet.Language/Text/TextWindow.cs:128-139 | the window is extended by `|s|`, and the assertion result says whether the characters taken are exactly `s` |
| TextWindows.ExtendIsClamped | src/Violet.Language/Text/TextWindow.cs:100-106 | extending never shrinks the window, grows it by at most `count`, and grows it by less only at the end of the text |
| TextWindows.ExtendTwice | src/Violet.Language/Text/TextWindow.cs:100-106 | extending by `m` and then by `n` equals extending by `m + n` |
| TextWindows.ExtendAtEnd | src/Violet.Language/Text/TextWindow.cs:100-106 | at the end of the text extending changes nothing |
| TextWindows.ScannedWhileContent | src/Violet.Language/Text/TextWindow.cs:41-55 | the content grows by exactly the scanned characters, each non-`'\0'` and accepted |
| TextWindows.CommitThenReset | src/Violet.Language/Text/TextWindow.cs:108-144 | resetting after advancing and advancing after resetting change nothing further |
| SyntaxFacts.Ordinal | src/Violet.Language/Syntax/SyntaxKind.cs:3-66 | each kind's underlying value lies below the number of kinds and `KindAt` maps it back, so the values are distinct |
| SyntaxFacts.UnaryPrecedence | src/Violet.Language/Syntax/SyntaxFacts.cs:5-15 | a prefix precedence is 0 or 6, and a positive one belongs to a token kind whose fixed text is one character |
| SyntaxFacts.BinaryPrecedence | src/Violet.Language/Syntax/SyntaxFacts.cs:17-46 | a binary precedence is at most 5, and a positive one belongs to a token kind with a fixed text |
| SyntaxFacts.IsComparisonOperator | src/Violet.Language/Syntax/SyntaxFacts.cs:48-59 | a comparison operator is a binary operator and never a prefix one |
| SyntaxFacts.GetText | src/Violet.Language/Syntax/SyntaxFacts.cs:61-99 | a fixed text exists only for token kinds, and is one or two characters long |
| SyntaxFacts.IsNode | src/Violet.Language/Syntax/SyntaxFacts.cs:101-102 | a node kind has no fixed text and is no operator |
| SyntaxFacts.KindRanges | src/Violet.Language/Syntax/SyntaxFacts.cs:101-162 | `IsTrivia`, `IsToken`, `IsNode` and `IsMarker` each hold for one block of the enumeration: trivia values 1 to 5, tokens 7 to 44, nodes from 45, markers 0 and 6 |
| SyntaxFacts.IsKeyword | src/Violet.Language/Syntax/SyntaxFacts.cs:164-165 | the stub: no kind is a keyword |
| SyntaxFacts.Filter | src/Violet.Language/Syntax/SyntaxFacts.cs:168-174 | `Where` keeps exactly the elements satisfying the predicate |
| SyntaxFacts.UnaryBindsTighterThanBinary | src/Violet.Language/Syntax/SyntaxFacts.cs:5-46 | every prefix operator's precedence exceeds every binary precedence |
| SyntaxFacts.ComparisonsShareOneLevel | src/Violet.Language/Syntax/SyntaxFacts.cs:29-59 | `IsComparisonOperator` holds exactly for the kinds of binary precedence 3 |
| SyntaxFacts.NotBothComparisons | src/Violet.Language/Syntax/SyntaxFacts.cs:17-59 | two operators of different binary precedence are never both comparisons |
| SyntaxFacts.FixedTextKinds | src/Violet.Language/Syntax/SyntaxFacts.cs:61-162 | `GetText` has a text exactly for the token kinds other than Bad, Number, String and Identifier |
| SyntaxFacts.ClassificationPartitions | src/Violet.Language/Syntax/SyntaxFacts.cs:101-162 | every kind is exactly one of token, trivia, marker and node |
| SyntaxFacts.AllKindsComplete | src/Violet.Language/Syntax/SyntaxFacts.cs:167 | `AllKinds` contains every kind, at the position of its underlying value |
| SyntaxFacts.BinaryOperatorsExact | src/Violet.Language/Syntax/SyntaxFacts.cs:170-171 | `BinaryOperators` lists exactly the kinds with positive binary precedence |
| SyntaxFacts.UnaryOperatorsExact | src/Violet.Language/Syntax/SyntaxFacts.cs:173-174 | `UnaryOperators` lists exactly `+`, `-` and `!` |
| SyntaxFacts.TokensExact | src/Violet.Language/Syntax/SyntaxFacts.cs:168 | `Tokens` lists exactly the kinds classified as tokens |
| Diagnostics.ArgTexts | src/Violet.Language/Diagnostic.cs:39 | each message argument is rendered by its own text, in order |
| Diagnostics.Prepend | src/Violet.Language/Diagnostic.cs:28-53 | text put in front of a rendering that succeeded; a failed rendering stays failed |
| Diagnostics.DescriptorFormat | src/Violet.Language/Diagnostic.cs:25-29 | as written: the rendering is the header `Severity Id: ` before the template filled with the one text `System.Object[]`, whatever the arguments; a template without braces renders as header and template |
| Diagnostics.DescriptorFormatWithArguments | src/Violet.Language/Diagnostic.cs:25-29 | corrected: the arguments fill the template; on a template without braces this agrees with the as-written rendering |
| Diagnostics.PlainTemplate | src/Violet.Language/Diagnostic.cs:27 | `string.Format` of a template without braces is the template, whatever the arguments |
| Diagnostics.Diagnostic.Message | src/Violet.Language/Diagnostic.cs:39 | the message is the template filled with the diagnostic's own arguments: exactly what the corrected descriptor rendering shows after its header |
| Diagnostics.Diagnostic.Format | src/Violet.Language/Diagnostic.cs:50-54 | `file[start .. end] ` before the as-written descriptor rendering, which is the same as with no arguments at all |
| Diagnostics.DigitRun | src/Violet.Language/Diagnostic.cs:27-39 | the placeholder index is the longest run of leading digits |
| Diagnostics.FormatCopiesPlainText | src/Violet.Language/Diagnostic.cs:27-39 | `string.Format` copies text without braces unchanged |
| Diagnostics.FormatPlaceholder | src/Violet.Language/Diagnostic.cs:27-39 | a placeholder `{i}` takes argument `i`, and raises `FormatException` when there is no such argument |
| Diagnostics.FormatOnePlaceholder | src/Violet.Language/Diagnostic.cs:27-39 | a template with one placeholder between plain texts renders as text, argument, text, or fails for lack of the argument |
| Diagnostics.FormatTwoPlaceholders | src/Violet.Language/Diagnostic.cs:27-39 | a template with `{0}` and `{1}` needs two arguments and then renders both in place |
| Diagnostics.OneHoleDescriptorFormat | src/Violet.Language/Diagnostic.cs:25-29 | as written, a one-placeholder descriptor renders the argument list's type name; with the arguments passed through it renders the first argument |
| Diagnostics.TwoHoleDescriptorFormat | src/Violet.Language/Diagnostic.cs:25-29 | as written, a two-placeholder descriptor always raises `FormatException`; with the arguments passed through it renders both |
| Diagnostics.DescriptorFormatIgnoresArguments | src/Violet.Language/Diagnostic.cs:25-29 | as written, the rendering does not depend on the arguments at all |
| Diagnostics.DescriptorFormatHidesEscapeSequence | src/Violet.Language/Diagnostic.cs:25-29 | as written, an invalid-escape diagnostic renders `System.Object[]` in place of the escape sequence |
| Diagnostics.DescriptorFormatFailsOnTwoPlaceholders | src/Violet.Language/Diagnostic.cs:25-29 | as written, rendering `UnexpectedToken` raises `FormatException` for every argument list |
| Diagnostics.DescriptorFormatWithArgumentsShowsArgument | src/Violet.Language/Diagnostic.cs:25-29 | corrected: "Error VI0001: Invalid Escape Sequence '" + the sequence + "'" |
| Diagnostics.DescriptorFormatWithArgumentsShowsKinds | src/Violet.Language/Diagnostic.cs:25-29 | corrected: the unexpected-token rendering names the found and the expected kind |
| Diagnostics.PlainMessage | src/Violet.Language/Diagnostic.cs:39 | a template without placeholders is its own message, whatever the arguments |
| Diagnostics.FixedMessages | src/Violet.Language/DiagnosticDescriptors.cs:12-47 | `UnterminatedStringLiteral` and `ComparisonsCannotBeChained` have fixed messages |
| Diagnostics.UnexpectedCharacterMessageFails | src/Violet.Language/DiagnosticDescriptors.cs:24-28 | the unexpected-character template has two placeholders, so with the one argument the tokenizer supplies its message raises `FormatException` |
| Diagnostics.OneArgumentMessage | src/Violet.Language/Diagnostic.cs:39 | a one-placeholder message shows its one argument in place |
| Diagnostics.CatalogueIsConsistent | src/Violet.Language/DiagnosticDescriptors.cs:6-72 | every descriptor has severity Error and the eleven ids are pairwise distinct |
| Diagnostics.IdentifierRanges | src/Violet.Language/DiagnosticDescriptors.cs:5-55 | tokenizer ids start `VI0`, parser ids `VI1`, binder ids `VI2` |
| Diagnostics.HasErrorsIffNonEmpty | src/Violet.Language/DiagnosticBuilder.cs:21-25 | a list of catalogue diagnostics has errors exactly when it is non-empty |
| Diagnostics.DiagnosticBuilder.constructor | src/Violet.Language/DiagnosticBuilder.cs:7 | a new builder holds nothing |
| Diagnostics.DiagnosticBuilder.Add | src/Violet.Language/DiagnosticBuilder.cs:9-10 | appends one diagnostic with exactly the given descriptor, location and arguments; earlier entries are kept |
| Diagnostics.DiagnosticBuilder.AddDiagnostic | src/Violet.Language/DiagnosticBuilder.cs:12 | appends the given diagnostic |
| Diagnostics.DiagnosticBuilder.AddRange | src/Violet.Language/DiagnosticBuilder.cs:14 | appends all given diagnostics, in order |
| Diagnostics.DiagnosticBuilder.ToImmutableArray | src/Violet.Language/DiagnosticBuilder.cs:16 | returns the entries in insertion order, as a value later additions cannot change |
| Diagnostics.DiagnosticBuilder.HasErrors | src/Violet.Language/DiagnosticBuilder.cs:18 | true exactly when some entry has severity Error |
| Syntax.MakeTrivia | src/Violet.Language/Syntax/SyntaxTrivia.cs:39-50 | succeeds exactly for a trivia kind, and then stores kind, position and text as given; any other kind is the `ArgumentOutOfRangeException` |
| Syntax.SyntaxToken.WithLeadingTrivia | src/Violet.Language/Syntax/SyntaxToken.cs:56-57 | only the leading trivia change; kind, position, text, value and trailing trivia are kept |
| Syntax.MakeToken | src/Violet.Language/Syntax/SyntaxToken.cs:29-44 | the fields are stored as given, and a missing text becomes the empty text, so the token is zero-width at its position |
| Syntax.Arguments | src/Violet.Language/Syntax/ExpressionSyntax.cs:64 | the arguments of a separated list are exactly its non-separator items |
| Syntax.ItemNodes | src/Violet.Language/Syntax/ExpressionSyntax.cs:73-76 | the arguments and separators are yielded one node each, in source order |
| Syntax.StatementNodes | src/Violet.Language/Syntax/StatementSyntax.cs:9-12 | a block yields one node per statement, in order |
| Syntax.MemberNodes | src/Violet.Language/Syntax/CompilationUnitSyntax.cs:9-15 | a unit yields one node per member, in order |
| Syntax.ItemSizeBound | src/Violet.Language/Syntax/ExpressionSyntax.cs:69-78 | each argument list item is no larger than the whole list |
| Syntax.StmtSizeBound | src/Violet.Language/Syntax/StatementSyntax.cs:9-12 | each statement is no larger than the statement list |
| Syntax.MemberSizeBound | src/Violet.Language/Syntax/CompilationUnitSyntax.cs:9-15 | each member is no larger than the member list |
| Syntax.ChildrenAreSmaller | src/Violet.Language/Syntax/SyntaxNode.cs:42 | every child `GetChildren` yields is strictly smaller than its parent, so the recursive span and dump terminate |
| Syntax.Children | src/Violet.Language/Syntax/SyntaxNode.cs:42 | a token has no children; only a token, a unit and a block can have none; a function declaration has seven, its body fifth |
| Syntax.Span | src/Violet.Language/Syntax/SyntaxNode.cs:26-35 | a token spans its text; a node without children has no span; otherwise the span runs from the first child's start to the last child's end |
| Syntax.TokenSelf | src/Violet.Language/Syntax/SyntaxToken.cs:76-79 | a token's own line is the line of a trivia of its kind, position and text: `Kind[start .. end] "text"`, without its trivia or value |
| Syntax.NodeSelf | src/Violet.Language/Syntax/SyntaxNode.cs:54-57 | a token's line is `TokenSelf`; a node's line exists exactly when its span does |
| Syntax.Lines | src/Violet.Language/Syntax/SyntaxNode.cs:44-52 | a node without a span fails; otherwise, the first line is the node's own at `4*indent` spaces, and a token's dump is `TokenLines` |
| Syntax.ExpressionSpan | src/Violet.Language/Syntax/SyntaxNode.cs:26-35 | every expression has a span, from its first token's start to its last token's end |
| Syntax.BinarySpan | src/Violet.Language/Syntax/ExpressionSyntax.cs:33-38 | a binary expression spans from the start of its left operand to the end of its right operand |
| Syntax.ExpressionStatementSpan | src/Violet.Language/Syntax/StatementSyntax.cs:9-12 | an expression statement's span is its expression's span |
| Syntax.FunctionDeclarationSpan | src/Violet.Language/Syntax/MemberSyntax.cs:17-26 | a function declaration spans from the first `fun` to the end of the closing `fun`, whatever its body |
| Syntax.EmptyNodesHaveNoSpan | src/Violet.Language/Syntax/SyntaxNode.cs:59-67 | a unit without members and a block without statements have no span: the bounding-child lookup fails |
| Syntax.UnitChildrenAreMembers | src/Violet.Language/Syntax/CompilationUnitSyntax.cs:9-15 | a unit's children are exactly its members, in order, as many as there are members |
| Syntax.CallChildren | src/Violet.Language/Syntax/ExpressionSyntax.cs:69-78 | a call yields its identifier, `(`, the arguments interleaved with their commas in order, then `)` |
| Syntax.TriviaLines | src/Violet.Language/Syntax/SyntaxToken.cs:63-73 | one line per trivia, in order, each the indentation, the marker and the trivia's kind, span and unescaped text |
| Syntax.TokenLines | src/Violet.Language/Syntax/SyntaxToken.cs:59-79 | one line per leading trivia, then the token line, then one line per trailing trivia; the token line is `4*indent` spaces and `Kind[start .. end] "text"` |
| Syntax.PrependLines | src/Violet.Language/Syntax/SyntaxNode.cs:44-52 | a node's own line goes in front of its children's lines, and a failed child fails the node |
| Syntax.TokenLinesAreIndented | src/Violet.Language/Syntax/SyntaxToken.cs:59-74 | every line of a token's dump starts with `4*indent` spaces |
| Syntax.LinesAreIndented | src/Violet.Language/Syntax/SyntaxNode.cs:44-52 | every line of a node's dump starts with `4*indent` spaces |
| Syntax.ChildLinesAreIndented | src/Violet.Language/Syntax/SyntaxNode.cs:48-51 | every line of the children's dump starts with their indentation |
| Syntax.WriteTrivia | src/Violet.Language/Syntax/SyntaxToken.cs:63-73 | the loop writes exactly the trivia lines, in order |
| Syntax.FormatToken | src/Violet.Language/Syntax/SyntaxToken.cs:59-74 | writes exactly the token's lines after what was written before |
| Syntax.FormatNode | src/Violet.Language/Syntax/SyntaxNode.cs:44-57 | succeeds exactly when the node's dump is defined, and then writes exactly its lines |
| Syntax.FormatChildren | src/Violet.Language/Syntax/SyntaxNode.cs:48-51 | the loop over the children succeeds exactly when every child dump is defined, and then writes them in order |
| Syntax.LinesOfNode | src/Violet.Language/Syntax/SyntaxNode.cs:44-52 | a node's dump is its own line followed by its children's dumps one level deeper |
| Lexer.Report | src/Violet.Language/Syntax/Tokenizer.cs:17 | reporting adds exactly one diagnostic at the end and changes nothing else |
| Lexer.ContiguousSnoc | src/Violet.Language/Syntax/Tokenizer.cs:56-64 | a trivia placed where the previous ones end keeps the list back to back |
| Lexer.Emit | src/Violet.Language/Syntax/Tokenizer.cs:56-64 | `EmitTrivia` appends one trivia of the window's start and content and commits the window |
| Lexer.EmitIsContiguous | src/Violet.Language/Syntax/Tokenizer.cs:56-64 | emitting keeps the trivia back to back, ending where the next window starts |
| Lexer.SingleLineComment | src/Violet.Language/Syntax/Tokenizer.cs:66-81 | adds exactly one `SingleLineCommentTrivia` of at least the two slashes, reports nothing and commits the window |
| Lexer.MultiLineCommentAsWritten | src/Violet.Language/Syntax/Tokenizer.cs:83-104 | as written: it never stops the loop; when it goes on the window has moved past the `/*` and diagnostics are only added; a new trivia is exactly one block comment at the window's start, and otherwise nothing was emitted and the window keeps its start and has grown past the star |
| Lexer.BlockCommentRest | src/Violet.Language/Syntax/Tokenizer.cs:83-104 | corrected block comment: never "nothing to read"; when it succeeds it adds exactly one `BlockCommentTrivia` at the window's start and only adds diagnostics |
| Lexer.MultiLineComment | src/Violet.Language/Syntax/Tokenizer.cs:83-104 | corrected `ReadMultiLineComment`: when it succeeds the window is committed past the `/*` |
| Lexer.Whitespace | src/Violet.Language/Syntax/Tokenizer.cs:106-110 | the white-space run from the window's end becomes one `WhitespaceTrivia` of that text, the next window starts after it, nothing is reported |
| Lexer.Newline | src/Violet.Language/Syntax/Tokenizer.cs:112-116 | the run of `\r` and `\n` becomes one `NewlineTrivia` of that text, the next window starts after it, nothing is reported |
| Lexer.ReadOneTrivia | src/Violet.Language/Syntax/Tokenizer.cs:118-152 | the next character picks the reader, `/` `*` running the block-comment reader as written; a reader that runs moves the window's end forward, so the trivia loop terminates |
| Lexer.ReadTriviaLoop | src/Violet.Language/Syntax/Tokenizer.cs:156-162 | the loop over the as-written readers ends with an empty window that has not moved back |
| Lexer.ReadTrivia | src/Violet.Language/Syntax/Tokenizer.cs:154-162 | clears the builder, runs the loop over the as-written readers and resets: the window ends empty, not before where it started |
| Lexer.SingleCharacter | src/Violet.Language/Syntax/Tokenizer.cs:233-237 | takes one character when there is one and reports nothing |
| Lexer.UpToTwo | src/Violet.Language/Syntax/Tokenizer.cs:239-251 | takes the operator character and the second character when present, and reports nothing |
| Lexer.UpToTwoOfTwo | src/Violet.Language/Syntax/Tokenizer.cs:253-272 | the two candidate second characters are tried in order; reports nothing |
| Lexer.NumericLiteral | src/Violet.Language/Syntax/Tokenizer.cs:289-312 | when it succeeds the token is a `NumberToken`, the window only grows and diagnostics are only added |
| Lexer.PlusMinus | src/Violet.Language/Syntax/Tokenizer.cs:274-287 | the kind is the operator, the compound operator or a number |
| Lexer.StringBody | src/Violet.Language/Syntax/Tokenizer.cs:316-375 | the string loop keeps the start and trivia, only grows the window and only adds diagnostics |
| Lexer.EscapeKept | src/Violet.Language/Syntax/Tokenizer.cs:327-340 | the escapes backslash-quote, backslash-n and backslash-backslash append a quote, a newline and a backslash, and reading goes on |
| Lexer.EscapeAtEnd | src/Violet.Language/Syntax/Tokenizer.cs:341-345 | a backslash at the end of the text ends the literal with one `UnterminatedStringLiteral` |
| Lexer.EscapeInvalid | src/Violet.Language/Syntax/Tokenizer.cs:346-354 | any other escape reports `InvalidEscapeSequence` over its two characters, appends nothing and reading goes on |
| Lexer.StringLiteral | src/Violet.Language/Syntax/Tokenizer.cs:314-380 | the token is a `StringToken`, and the reader only grows the window and only adds diagnostics |
| Lexer.Operator | src/Violet.Language/Syntax/Tokenizer.cs:194-211 | every operator and punctuation character gives a token kind other than `BadToken`, takes at least a character and reports nothing |
| Lexer.ReadToken | src/Violet.Language/Syntax/Tokenizer.cs:183-231 | when it succeeds the window only grows from its start and diagnostics are only added |
| Lexer.GetNextToken | src/Violet.Language/Syntax/Tokenizer.cs:165-181 | with the trivia read as written, a token read successfully leaves the next reading at an empty window that has not moved back |
| LexerProperties.ContiguousCovers | src/Violet.Language/Syntax/Tokenizer.cs:56-64 | back-to-back trivia spell out exactly the text between their ends |
| LexerProperties.BlockCommentRestContiguous | src/Violet.Language/Syntax/Tokenizer.cs:83-104 | the block comment reader keeps the trivia back to back |
| LexerProperties.MultiLineCommentAsWrittenContiguous | src/Violet.Language/Syntax/Tokenizer.cs:83-104 | the as-written block comment reader keeps the trivia back to back, whether it emits or not |
| LexerProperties.SingleLineCommentContiguous | src/Violet.Language/Syntax/Tokenizer.cs:66-81 | the line comment reader keeps the trivia back to back |
| LexerProperties.ReadOneTriviaContiguous | src/Violet.Language/Syntax/Tokenizer.cs:118-152 | each trivia reader keeps the trivia back to back, ending where the window starts |
| LexerProperties.ReadTriviaLoopContiguous | src/Violet.Language/Syntax/Tokenizer.cs:156-159 | the trivia loop keeps the trivia back to back |
| LexerProperties.ReadTriviaContiguous | src/Violet.Language/Syntax/Tokenizer.cs:154-162 | the trivia `ReadTrivia` collects lie back to back from where it began to where the window now starts |
| LexerProperties.GetNextTokenTiles | src/Violet.Language/Syntax/Tokenizer.cs:165-181 | a token read by `GetNextToken` tiles the text: leading trivia, its own text, trailing trivia, back to back up to where the next token's reading starts |
| LexerProperties.TokenTiles | src/Violet.Language/Syntax/Tokenizer.cs:167-180 | a token built from the three reading steps tiles the text from the first step's start |
| LexerProperties.TilesFullText | src/Violet.Language/Syntax/Tokenizer.cs:165-181 | the text a tiling token covers is its leading trivia text, its text and its trailing trivia text |
| LexerProperties.BlockCommentRestNoCrash | src/Violet.Language/Syntax/Tokenizer.cs:98 | without a `'\0'` character in the text, the `Assert('*')` in a block comment never fails |
| LexerProperties.MultiLineCommentAsWrittenNoCrash | src/Violet.Language/Syntax/Tokenizer.cs:98 | without a `'\0'` in the text, the as-written reader's `Assert('*')` never fails |
| LexerProperties.ReadTriviaLoopSucceeds | src/Violet.Language/Syntax/Tokenizer.cs:154-162 | without a `'\0'` character, the trivia loop never fails |
| LexerProperties.GetNextTokenSucceeds | src/Violet.Language/Syntax/Tokenizer.cs:165-181 | without a `'\0'` character, `GetNextToken` always returns a token |
| LexerProperties.GetNextTokenProgress | src/Violet.Language/Syntax/Tokenizer.cs:165-190 | the token is the end-of-file marker exactly when its text is empty; any other token moves the next reading forward; its kind is a lexed kind |
| LexerProperties.TokenProgress | src/Violet.Language/Syntax/Tokenizer.cs:167-180 | a token built from the three steps is the end-of-file marker exactly when its text is empty, and otherwise moves reading on |
| LexerProperties.ReadTokenProgress | src/Violet.Language/Syntax/Tokenizer.cs:187-230 | the end-of-file marker is read exactly at `'\0'` or the end and leaves the state as it was; every other token takes at least one character |
| LexerProperties.ReadTokenKind | src/Violet.Language/Syntax/Tokenizer.cs:183-231 | the tokenizer produces only the two markers and token kinds other than `BadToken` |
| LexerProperties.LexedKindIsNoKeyword | src/Violet.Language/Syntax/Tokenizer.cs:183-231 | a lexed kind is never a keyword, the semicolon, trivia or a node |
| LexerProperties.DropSeparators | src/Violet.Language/Syntax/Tokenizer.cs:301 | removing `_` from digits and `_` leaves only digits |
| LexerProperties.NumberTextParses | src/Violet.Language/Syntax/Tokenizer.cs:296-311 | `long.Parse` never rejects the text of a number literal: it reads a value or overflows |
| LexerProperties.NumericLiteralSucceeds | src/Violet.Language/Syntax/Tokenizer.cs:289-312 | `ParseNumericLiteral` never throws where the tokenizer calls it |
| LexerProperties.SignThenDigits | src/Violet.Language/Syntax/Tokenizer.cs:291-296 | a sign and then a digit followed by digits or `_` is number text |
| LexerProperties.PlusMinusSucceeds | src/Violet.Language/Syntax/Tokenizer.cs:274-287 | `ParsePlusMinus` never throws |
| LexerProperties.ReadTokenSucceeds | src/Violet.Language/Syntax/Tokenizer.cs:183-231 | reading a token from a committed window never throws |
| LexerProperties.PlainStep | src/Violet.Language/Syntax/Tokenizer.cs:370-372 | a plain character is appended to the value and reading goes on |
| LexerProperties.StringBodyPlain | src/Violet.Language/Syntax/Tokenizer.cs:319-374 | a run of plain characters is appended to the value one by one |
| LexerProperties.StringBodyThrough | src/Violet.Language/Syntax/Tokenizer.cs:319-374 | a run of plain characters becomes the value, and the window covers it |
| LexerProperties.OpenQuote | src/Violet.Language/Syntax/Tokenizer.cs:377 | the opening quote is taken first |
| LexerProperties.ClosedStringLiteral | src/Violet.Language/Syntax/Tokenizer.cs:314-380 | a closed literal without escapes: the value is the text between the quotes, the token covers both quotes, nothing is reported |
| LexerProperties.UnterminatedStringLiteral | src/Violet.Language/Syntax/Tokenizer.cs:358-369 | a literal the line or the text ends inside: the value is the text after the quote, the token stops before the line break, and one `UnterminatedStringLiteral` spans the token |
| LexerProperties.StringBodyEnds | src/Violet.Language/Syntax/Tokenizer.cs:358-369 | a line break or the end ends the literal, the line break given back to the text |
| LexerExamples.GetNextTokenParts | src/Violet.Language/Syntax/Tokenizer.cs:165-181 | a reading whose three steps are known yields the token they make |
| LexerExamples.NoTrivia | src/Violet.Language/Syntax/Tokenizer.cs:118-162 | where no trivia starts, `ReadTrivia` only clears the trivia and empties the window |
| LexerExamples.QuoteStartsString | src/Violet.Language/Syntax/Tokenizer.cs:191-192 | a quote starts a string literal |
| LexerExamples.EmptyText | src/Violet.Language/Syntax/Tokenizer.cs:189-190 | the empty text gives one end-of-file marker with no text and no trivia |
| LexerExamples.UnterminatedToEnd | tests/Violet.Language.Tests/Syntax/TokenizerTests.cs:48-64 | a quote and plain characters up to the end: one string token over the whole text, whose value is the text after the quote, and one `UnterminatedStringLiteral` spanning it |
| LexerExamples.BlockCommentRestCloses | src/Violet.Language/Syntax/Tokenizer.cs:83-104 | corrected: the block comment reads through the first `*/`, whatever single stars come before it |
| LexerExamples.BlockCommentRestStep | src/Violet.Language/Syntax/Tokenizer.cs:98-103 | one round after a `*`: a `/` closes the comment, anything else reads on |
| LexerExamples.StarInsideComment | src/Violet.Language/Syntax/Tokenizer.cs:83-104 | as written, a star not followed by `/` ends the reader with nothing emitted and the characters left in the window; corrected, the whole comment through the first `*/` is emitted |
| LexerExamples.StarInsideCommentExample | src/Violet.Language/Syntax/Tokenizer.cs:83-104 | the seven-character comment slash, star, space, star, space, star, slash: as written nothing is emitted, corrected it is one block comment |
| LexerExamples.SpaceAfterUnclosedComment | src/Violet.Language/Syntax/Tokenizer.cs:118-152 | in `/* * */`, after the block-comment reader stopped at the second star, the white-space reader emits the window together with the space as one `WhitespaceTrivia` |
| LexerExamples.StarInsideCommentTrivia | src/Violet.Language/Syntax/Tokenizer.cs:154-162 | as written, the leading trivia of `/* * */` are one `WhitespaceTrivia` over `/* * ` and reading stops before the third star |
| LexerExamples.StarInsideCommentToken | src/Violet.Language/Syntax/Tokenizer.cs:165-181 | as written, the first token of `/* * */` is a `StarToken` at 5 whose leading trivia are that white-space trivia |
| Tokenizers.Tokenizer.constructor | src/Violet.Language/Syntax/Tokenizer.cs:19-24 | a new tokenizer is at the start state with an empty lookahead buffer |
| Tokenizers.Tokenizer.EmitTrivia | src/Violet.Language/Syntax/Tokenizer.cs:56-64 | takes exactly the `Emit` step |
| Tokenizers.Tokenizer.ReadSingleLineComment | src/Violet.Language/Syntax/Tokenizer.cs:66-81 | takes exactly the `SingleLineComment` step |
| Tokenizers.Tokenizer.ReadMultiLineComment | src/Violet.Language/Syntax/Tokenizer.cs:83-104 | the loop takes exactly the as-written `MultiLineCommentAsWritten` step, and fails exactly where `Assert('*')` fails |
| Tokenizers.Tokenizer.ReadWhitespace | src/Violet.Language/Syntax/Tokenizer.cs:106-110 | takes exactly the `Whitespace` step: the white-space run as one trivia |
| Tokenizers.Tokenizer.ReadNewline | src/Violet.Language/Syntax/Tokenizer.cs:112-116 | takes exactly the `Newline` step: the CR/LF run as one trivia |
| Tokenizers.Tokenizer.ReadOneTrivia | src/Violet.Language/Syntax/Tokenizer.cs:118-152 | says whether a reader ran and takes exactly that reader's step of the as-written `ReadOneTrivia`; when none ran nothing changes |
| Tokenizers.Tokenizer.ReadTrivia | src/Violet.Language/Syntax/Tokenizer.cs:54-163 | the loop ends in exactly the as-written `ReadTrivia` state, and fails exactly when it fails |
| Tokenizers.Tokenizer.SingleCharacterToken | src/Violet.Language/Syntax/Tokenizer.cs:233-237 | takes exactly the `SingleCharacter` step |
| Tokenizers.Tokenizer.UpToTwoOperator | src/Violet.Language/Syntax/Tokenizer.cs:239-251 | takes exactly the `UpToTwo` step |
| Tokenizers.Tokenizer.SecondOf | src/Violet.Language/Syntax/Tokenizer.cs:245-250 | the second character widens to the two-character kind exactly when it matches |
| Tokenizers.Tokenizer.UpToTwoOperatorOfTwo | src/Violet.Language/Syntax/Tokenizer.cs:253-272 | takes exactly the `UpToTwoOfTwo` step |
| Tokenizers.Tokenizer.SecondOfTwo | src/Violet.Language/Syntax/Tokenizer.cs:261-271 | the first matching candidate wins, else the one-character kind |
| Tokenizers.Tokenizer.ParseNumericLiteral | src/Violet.Language/Syntax/Tokenizer.cs:289-312 | takes exactly the `NumericLiteral` step, and fails exactly where it throws |
| Tokenizers.Tokenizer.ParsePlusMinus | src/Violet.Language/Syntax/Tokenizer.cs:274-287 | takes exactly the `PlusMinus` step |
| Tokenizers.Tokenizer.ReadEscape | src/Violet.Language/Syntax/Tokenizer.cs:326-357 | the escape case of the string loop keeps the loop equal to `StringBody` |
| Tokenizers.Tokenizer.ParseStringLiteral | src/Violet.Language/Syntax/Tokenizer.cs:314-380 | the loop ends in exactly the `StringLiteral` state with its value |
| Tokenizers.Tokenizer.OperatorToken | src/Violet.Language/Syntax/Tokenizer.cs:194-211 | takes exactly the `Operator` step |
| Tokenizers.Tokenizer.ReadToken | src/Violet.Language/Syntax/Tokenizer.cs:183-231 | takes exactly the `ReadToken` step, and fails exactly where it throws |
| Tokenizers.Tokenizer.GetNextToken | src/Violet.Language/Syntax/Tokenizer.cs:165-181 | returns exactly the token and state of the as-written `GetNextToken` |
| Tokenizers.Tokenizer.Peek | src/Violet.Language/Syntax/Tokenizer.cs:30-38 | a buffered token is returned with nothing changed; otherwise the next token is read as the as-written `GetNextToken` reads it, and buffered |
| Tokenizers.Tokenizer.Next | src/Violet.Language/Syntax/Tokenizer.cs:44-52 | returns the token `Peek` would give, read as written, and clears the buffer |
| ParserSpec.Abandon | src/Violet.Language/Syntax/Parser.Productions.cs:29 | an exception or a non-terminating loop is passed on unchanged by the caller |
| ParserSpec.FollowsTransitive | src/Violet.Language/Syntax/Parser.cs:10-31 | the cursor only moves forward and diagnostics only accumulate, over any sequence of productions |
| ParserSpec.Peek | src/Violet.Language/Syntax/Parser.cs:17-26 | the token `offset` places on, or the last token past the end, which is the end-of-file marker |
| ParserSpec.Current | src/Violet.Language/Syntax/Parser.cs:13 | the token at the cursor, or the last token past the end; it is one of the tokens, and at or past the last position it is the end-of-file marker |
| ParserSpec.At | src/Violet.Language/Syntax/Parser.cs:54-55 | true exactly when the token at the cursor has the kind; at or past the end exactly when the kind is the end-of-file marker |
| ParserSpec.AtEither | src/Violet.Language/Syntax/Parser.cs:58-59 | true exactly when the current token has one of the two kinds |
| ParserSpec.AtSequence | src/Violet.Language/Syntax/Parser.cs:62-63 | true exactly when the current and the next token have the two kinds in order; at the end only for two end-of-file markers |
| ParserSpec.NotAtEnd | src/Violet.Language/Syntax/Parser.cs:17-26 | where the current token is not the end-of-file marker, a later token exists |
| ParserSpec.NextToken | src/Violet.Language/Syntax/Parser.cs:28-33 | hands out the current token and moves the cursor one on, reporting nothing |
| ParserSpec.TokenLocation | src/Violet.Language/Syntax/SyntaxToken.cs:27 | a token's location is its span in the tree's text |
| ParserSpec.Expect | src/Violet.Language/Syntax/Parser.cs:35-51 | always gives a token of the expected kind; a match consumes it; the cursor never moves back |
| ParserSpec.Unexpected | src/Violet.Language/Syntax/Parser.cs:42 | the `UnexpectedToken` diagnostic is at the current token with the found and the expected kind as arguments |
| ParserSpec.ExpectMismatch | src/Violet.Language/Syntax/Parser.cs:42-50 | on a mismatch nothing is consumed, one diagnostic is reported, and the token made up is zero-width at the current position with no value and no trivia |
| ParserSpec.Try | src/Violet.Language/Syntax/Parser.cs:69-71 | a token is taken exactly when the cursor is at that kind; otherwise nothing changes |
| ParserSpec.TryEither | src/Violet.Language/Syntax/Parser.cs:73-75 | a token is taken exactly when the cursor is at either kind; otherwise nothing changes |
| ParserSpec.Expression | src/Violet.Language/Syntax/Parser.Productions.cs:66-67 | an expression always terminates, and the cursor never moves back |
| ParserSpec.BinaryExpression | src/Violet.Language/Syntax/Parser.Productions.cs:69-112 | always terminates; the cursor never moves back and diagnostics are only added |
| ParserSpec.LeftOperand | src/Violet.Language/Syntax/Parser.Productions.cs:71-84 | the left operand always terminates; the cursor never moves back |
| ParserSpec.CheckChain | src/Violet.Language/Syntax/Parser.Productions.cs:89-97 | a comparison operator met while `inComparison` adds exactly one `ComparisonsCannotBeChained` at it; otherwise nothing changes |
| ParserSpec.BinaryLoop | src/Violet.Language/Syntax/Parser.Productions.cs:86-111 | the operator loop always terminates; the cursor never moves back |
| ParserSpec.PrimaryExpression | src/Violet.Language/Syntax/Parser.Productions.cs:119-138 | always terminates; the cursor never moves back |
| ParserSpec.CallExpression | src/Violet.Language/Syntax/Parser.Productions.cs:126-133 | always terminates; the cursor never moves back |
| ParserSpec.ArgumentList | src/Violet.Language/Syntax/Parser.Productions.cs:140-167 | the argument loop always terminates; the cursor never moves back |
| ParserSpec.Statement | src/Violet.Language/Syntax/Parser.Productions.cs:59-64 | a statement is an expression statement; it always terminates and the cursor never moves back |
| ParserSpec.BlockStatement | src/Violet.Language/Syntax/Parser.Productions.cs:47-57 | a finished block stops at `end` and keeps the statements already parsed, in order |
| ParserSpec.FunctionHeader | src/Violet.Language/Syntax/Parser.Productions.cs:34-37 | the four tokens have the kinds `fun`, identifier, `(` and `)`, and at `fun` the cursor moves on |
| ParserSpec.FunctionEnd | src/Violet.Language/Syntax/Parser.Productions.cs:39-44 | the closing tokens are `end` and `fun`, whatever the text holds |
| ParserSpec.FunctionDeclaration | src/Violet.Language/Syntax/Parser.Productions.cs:32-45 | a finished declaration that started at `fun` moved the cursor on |
| ParserSpec.FunctionBody | src/Violet.Language/Syntax/Parser.Productions.cs:38-44 | a finished body leaves the cursor no further back than the header |
| ParserSpec.Member | src/Violet.Language/Syntax/Parser.Productions.cs:21-30 | a member not starting with `fun` throws; a finished member moved the cursor on |
| ParserSpec.CompilationUnit | src/Violet.Language/Syntax/Parser.Productions.cs:9-19 | a finished unit stops at the end-of-file marker and keeps the members already parsed, in order |
| ParserSpec.Parse | src/Violet.Language/Syntax/Parser.cs:15 | a finished parse stops at the end-of-file marker |
| Parsers.Parser.constructor | src/Violet.Language/Syntax/Parser.cs:6-10 | a new parser is at the first token with no diagnostics |
| Parsers.Parser.NextToken | src/Violet.Language/Syntax/Parser.cs:28-33 | returns and moves exactly as `NextToken` describes |
| Parsers.Parser.Expect | src/Violet.Language/Syntax/Parser.cs:35-51 | returns and reports exactly as `Expect` describes |
| Parsers.Parser.Try | src/Violet.Language/Syntax/Parser.cs:69-71 | returns and moves exactly as `Try` describes |
| Parsers.Parser.TryEither | src/Violet.Language/Syntax/Parser.cs:73-75 | returns and moves exactly as `TryEither` describes |
| Parsers.Parser.Parse | src/Violet.Language/Syntax/Parser.cs:15 | gives exactly the outcome of `CompilationUnit` from where the parser stands |
| Parsers.Parser.CompilationUnit | src/Violet.Language/Syntax/Parser.Productions.cs:9-19 | the member loop gives exactly the `CompilationUnit` outcome, and leaves the parser in its state |
| Parsers.Parser.Member | src/Violet.Language/Syntax/Parser.Productions.cs:21-30 | gives exactly the `Member` outcome; a finished member moved the cursor on |
| Parsers.Parser.FunctionDeclaration | src/Violet.Language/Syntax/Parser.Productions.cs:32-45 | gives exactly the `FunctionDeclaration` outcome |
| Parsers.Parser.FunctionHeader | src/Violet.Language/Syntax/Parser.Productions.cs:34-37 | gives exactly the `FunctionHeader` tokens and state |
| Parsers.Parser.FunctionBody | src/Violet.Language/Syntax/Parser.Productions.cs:38-44 | gives exactly the `FunctionBody` outcome |
| Parsers.Parser.BlockStatement | src/Violet.Language/Syntax/Parser.Productions.cs:47-57 | the statement loop gives exactly the `BlockStatement` outcome, stopping where the source would loop for ever |
| Parsers.Parser.Statement | src/Violet.Language/Syntax/Parser.Productions.cs:59-64 | gives exactly the `Statement` outcome |
| Parsers.Parser.Expression | src/Violet.Language/Syntax/Parser.Productions.cs:66-67 | gives exactly the `Expression` outcome |
| Parsers.Parser.BinaryExpression | src/Violet.Language/Syntax/Parser.Productions.cs:69-112 | gives exactly the `BinaryExpression` outcome |
| Parsers.Parser.LeftOperand | src/Violet.Language/Syntax/Parser.Productions.cs:71-84 | gives exactly the `LeftOperand` outcome |
| Parsers.Parser.BinaryLoop | src/Violet.Language/Syntax/Parser.Productions.cs:86-111 | the `while (true)` loop gives exactly the `BinaryLoop` outcome |
| Parsers.Parser.CheckChain | src/Violet.Language/Syntax/Parser.Productions.cs:89-97 | reports exactly as `CheckChain` describes |
| Parsers.Parser.PrimaryExpression | src/Violet.Language/Syntax/Parser.Productions.cs:119-138 | gives exactly the `PrimaryExpression` outcome |
| Parsers.Parser.CallExpression | src/Violet.Language/Syntax/Parser.Productions.cs:126-133 | gives exactly the `CallExpression` outcome |
| Parsers.Parser.ArgumentList | src/Violet.Language/Syntax/Parser.Productions.cs:140-167 | the argument loop gives exactly the `ArgumentList` outcome |
| ParserProperties.PrimaryName | src/Violet.Language/Syntax/Parser.Productions.cs:135-137 | an identifier not followed by `(` is a name expression, and the cursor moves one on |
| ParserProperties.OperandThenLoop | src/Violet.Language/Syntax/Parser.Productions.cs:69-111 | once the left operand is parsed, the binary-operator loop runs over it |
| ParserProperties.NameOperand | src/Violet.Language/Syntax/Parser.Productions.cs:69-111 | an identifier not followed by `(` is the left operand the loop starts from |
| ParserProperties.UnaryOperand | src/Violet.Language/Syntax/Parser.Productions.cs:73-80 | a prefix operator binding at least as tightly as the parent applies to the operand parsed at its own precedence |
| ParserProperties.LoopStops | src/Violet.Language/Syntax/Parser.Productions.cs:99-104 | the loop stops at a token binding no more tightly than the parent, after the chain check |
| ParserProperties.LoopStopsQuietly | src/Violet.Language/Syntax/Parser.Productions.cs:89-104 | where no comparison chains, the loop stops without reporting or consuming |
| ParserProperties.LoopStep | src/Violet.Language/Syntax/Parser.Productions.cs:106-108 | an operator binding more tightly is consumed, its right operand parsed, and the loop goes on over the combined tree |
| ParserProperties.ChainReported | src/Violet.Language/Syntax/Parser.Productions.cs:90-97 | a comparison inside a comparison's right operand is reported at that token, nothing consumed |
| ParserProperties.NameStops | src/Violet.Language/Syntax/Parser.Productions.cs:83-104 | a name followed by an operator binding no more tightly than the parent is a whole operand |
| ParserProperties.LoopTakesName | src/Violet.Language/Syntax/Parser.Productions.cs:99-108 | an operator and an identifier followed by an operator binding no more tightly: the identifier is the right operand |
| ParserProperties.LoopTakesLastName | src/Violet.Language/Syntax/Parser.Productions.cs:99-108 | an operator, an identifier and the end of the file: the loop combines the three and stops |
| ParserProperties.LoopTakesLast | src/Violet.Language/Syntax/Parser.Productions.cs:99-108 | an operator whose right operand ends at the end of the file is the last one combined |
| ParserProperties.TighterRightOperand | src/Violet.Language/Syntax/Parser.Productions.cs:69-112 | after `a op1`, the operand `b op2 c` with op2 binding more tightly is parsed whole and stops at the end of the file |
| ParserProperties.BinaryLeftFirst | src/Violet.Language/Syntax/Parser.Productions.cs:69-112 | `a op1 b op2 c` with op1 binding at least as tightly groups as `(a op1 b) op2 c`, nothing reported |
| ParserProperties.BinaryRightFirst | src/Violet.Language/Syntax/Parser.Productions.cs:69-112 | with op2 binding more tightly it groups as `a op1 (b op2 c)`, nothing reported |
| ParserProperties.ChainedComparisons | src/Violet.Language/Syntax/Parser.Productions.cs:89-97 | `a C1 b C2 c` with two comparisons still gives `(a C1 b) C2 c`, with exactly one `ComparisonsCannotBeChained` at C2 |
| ParserProperties.UnaryPrecedenceShape | src/Violet.Language/Syntax/Parser.Productions.cs:73-84 | `u a op b` always groups as `(u a) op b` |
| ParserProperties.ArgumentListAlternates | src/Violet.Language/Syntax/Parser.Productions.cs:140-167 | the argument list alternates arguments and commas, starting with an argument, and only extends what it was given |
| ParserProperties.AlternatesWithPair | src/Violet.Language/Syntax/Parser.Productions.cs:152-158 | an argument and its comma keep the list alternating |
| ParserProperties.AlternatesWithLast | src/Violet.Language/Syntax/Parser.Productions.cs:152-162 | a last argument without a comma keeps the list alternating |
| ParserProperties.PrimaryAtEnd | src/Violet.Language/Syntax/Parser.Productions.cs:135-137 | at the end of the file a primary expression is a made-up zero-width name, reported as unexpected, nothing consumed |
| ParserProperties.ExpressionAtEnd | src/Violet.Language/Syntax/Parser.Productions.cs:66-112 | at the end of the file a whole expression is that name, and nothing more is reported |
| ParserProperties.BlockAtEndOfFileDiverges | src/Violet.Language/Syntax/Parser.Productions.cs:50-54 | a block that meets the end of the file before `end` never terminates |
| ParserProperties.EmptyFile | src/Violet.Language/Syntax/Parser.Productions.cs:9-19 | a file with only the end-of-file marker is an empty compilation unit with no diagnostics |
| SyntaxTrees.ReadTokensStopsAtEndOfFile | src/Violet.Language/Syntax/SyntaxTree.cs:186-198 | `ParseTokens` stops at the first end-of-file marker: kept last and only there on request, absent otherwise; every token is of a kind the tokenizer produces |
| SyntaxTrees.StopsAtEndOfFile | src/Violet.Language/Syntax/SyntaxTree.cs:186-198 | the same, from any state of the loop |
| SyntaxTrees.IncludeEndOfFileAddsMarker | src/Violet.Language/Syntax/SyntaxTree.cs:189-192 | `includeEndOfFile` adds only the marker: both runs succeed together, with the same diagnostics, and the tokens with it are those without it followed by the marker |
| SyntaxTrees.ReadTokensAppends | src/Violet.Language/Syntax/SyntaxTree.cs:186-198 | the tokens read after those already collected do not depend on them |
| SyntaxTrees.Folded | src/Violet.Language/Syntax/SyntaxTree.cs:116-142 | the token after a run of collected tokens keeps its kind, text, value and trailing trivia, and gains their trivia after its own leading trivia |
| SyntaxTrees.ReadTokensStep | src/Violet.Language/Syntax/SyntaxTree.cs:188-197 | one turn of the `ParseTokens` loop |
| SyntaxTrees.TokenLoopStep | src/Violet.Language/Syntax/SyntaxTree.cs:105-146 | one turn of the `do ... while` loop of `Parse` |
| SyntaxTrees.TokenLoopEnds | src/Violet.Language/Syntax/SyntaxTree.cs:146-148 | the tokens handed to the parser end in the end-of-file marker |
| SyntaxTrees.TokenLoopFoldsReadTokens | src/Violet.Language/Syntax/SyntaxTree.cs:98-146 | the loop of `Parse` is `ParseTokens` followed by the folding: it fails where that fails, and keeps its diagnostics |
| SyntaxTrees.FoldsAlong | src/Violet.Language/Syntax/SyntaxTree.cs:98-146 | the same, from any state of the loop |
| SyntaxTrees.FoldStep | src/Violet.Language/Syntax/SyntaxTree.cs:108-145 | one token that is not the end-of-file marker, then the rest of both loops |
| SyntaxTrees.FoldOne | src/Violet.Language/Syntax/SyntaxTree.cs:113-145 | a last token not folded takes the collected ones |
| SyntaxTrees.FoldCollects | src/Violet.Language/Syntax/SyntaxTree.cs:108-112 | a token of the folded kind is collected |
| SyntaxTrees.FoldKeeps | src/Violet.Language/Syntax/SyntaxTree.cs:113-145 | any other token is kept with the collected ones folded into it, and collection starts afresh |
| SyntaxTrees.FoldRemovesKind | src/Violet.Language/Syntax/SyntaxTree.cs:108-145 | no token of the folded kind is left |
| SyntaxTrees.Kinds | src/Violet.Language/Syntax/SyntaxTree.cs:144 | the kinds of a token list, one per token |
| SyntaxTrees.FoldKeepsOtherKinds | src/Violet.Language/Syntax/SyntaxTree.cs:108-145 | every token not folded is kept, in order |
| SyntaxTrees.FoldWithoutKindIsIdentity | src/Violet.Language/Syntax/SyntaxTree.cs:108-145 | without a token of the folded kind, folding changes nothing |
| SyntaxTrees.SkippedTextsAppend | src/Violet.Language/Syntax/SyntaxTree.cs:118-141 | the skipped texts of joined trivia lists are joined |
| SyntaxTrees.Texts | src/Violet.Language/Syntax/SyntaxTree.cs:129-130 | the texts of a token list, one per token |
| SyntaxTrees.SkippedTriviaTexts | src/Violet.Language/Syntax/SyntaxTree.cs:120-138 | the skipped texts the collected tokens become are their texts, in order |
| SyntaxTrees.NoSkippedInit | src/Violet.Language/Syntax/SyntaxTree.cs:120-138 | tokens with no skipped trivia stay so without their last |
| SyntaxTrees.SkippedPartTexts | src/Violet.Language/Syntax/SyntaxTree.cs:122-137 | one collected token gives exactly its text as skipped text |
| SyntaxTrees.FoldSkippedTexts | src/Violet.Language/Syntax/SyntaxTree.cs:108-145 | every folded token's text comes back as skipped text in the trivia of the kept tokens, in order |
| SyntaxTrees.NoSkippedParts | src/Violet.Language/Syntax/SyntaxTree.cs:108-145 | tokens with no skipped trivia stay so without their first |
| SyntaxTrees.NoSkippedSnoc | src/Violet.Language/Syntax/SyntaxTree.cs:111 | collecting one more token with no skipped trivia keeps the collection so |
| SyntaxTrees.CollectedTexts | src/Violet.Language/Syntax/SyntaxTree.cs:111 | a collected token's text goes after the texts collected before it |
| SyntaxTrees.KeptTexts | src/Violet.Language/Syntax/SyntaxTree.cs:116-144 | the token that takes the collected ones holds their texts and no other skipped text |
| SyntaxTrees.AsWrittenFoldsNothing | src/Violet.Language/Syntax/SyntaxTree.cs:108 | as written, the folding of `BadToken` never fires: the parser gets exactly the tokens `ParseTokens` reads |
| SyntaxTrees.ParseTextFoldsUnknown | src/Violet.Language/Syntax/SyntaxTree.cs:98-146 | corrected: no token of an unexpected character reaches the parser, every other token does in order, and each such character's text is kept as skipped text |
| SyntaxTrees.FoldFacts | src/Violet.Language/Syntax/SyntaxTree.cs:98-146 | the corrected folding of a token list ending in the end-of-file marker |
| SyntaxTrees.ParseTextDiagnostics | src/Violet.Language/Syntax/SyntaxTree.cs:151-157 | a parsed tree's diagnostics start with the tokenizer's; a tokenizer exception ends `Parse` |
| SyntaxTrees.ParseTextIs | src/Violet.Language/Syntax/SyntaxTree.cs:148-157 | `Parse` is the parser over the loop's tokens, where the loop finishes |
| SyntaxTrees.ParseRunDiagnostics | src/Violet.Language/Syntax/SyntaxTree.cs:151-153 | the tokenizer's diagnostics come before the parser's |
| SyntaxTrees.ParseWith | src/Violet.Language/Syntax/SyntaxTree.cs:93-159 | `Parse` for a given folded kind: a tokenizer exception makes it throw, and a parsed tree's diagnostics start with those of the token loop |
| SyntaxTrees.ParseAsWritten | src/Violet.Language/Syntax/SyntaxTree.cs:93-159 | as written: it throws where `ParseTokens` throws, and otherwise the parser runs over exactly the tokens `ParseTokens` reads with the end-of-file marker |
| SyntaxTrees.AsWrittenIsUnfolded | src/Violet.Language/Syntax/SyntaxTree.cs:98-146 | the as-written loop fails exactly where `ParseTokens` fails and otherwise hands over exactly its tokens and diagnostics, a well-formed parser input |
| SyntaxTrees.ParseText | src/Violet.Language/Syntax/SyntaxTree.cs:93-159 | corrected `Parse`: it throws where `ParseTokens` throws, and a parsed tree's diagnostics start with the tokenizer's |
| SyntaxTrees.ParserInputIsLexed | src/Violet.Language/Syntax/SyntaxTree.cs:98-146 | the tokens the corrected loop hands to the parser are non-empty and each of a kind the tokenizer produces |
| SyntaxTrees.LexedRunHasNoMembers | src/Violet.Language/Syntax/Parser.Productions.cs:9-30 | over tokens of lexed kinds a parsed unit has no members, and a first token other than the end-of-file marker makes the parse throw |
| SyntaxTrees.FoldKeepsLexedKinds | src/Violet.Language/Syntax/SyntaxTree.cs:103-146 | folding skipped tokens into the next token introduces no kind the tokenizer does not produce |
| SyntaxTrees.ParsedTextHasNoMembers | src/Violet.Language/Syntax/Tokenizer.cs:215-218 | for the corrected `Parse`: every word is lexed as an identifier, never as a keyword, so `Member` never sees `fun`: a text that parses has no members, and a parser input that starts with anything but the end of file makes the parse throw |
| SyntaxTrees.AsWrittenHasNoMembers | src/Violet.Language/Syntax/Tokenizer.cs:215-218 | the same for `Parse` as written: a text that parses has no members, and a text whose first token is not the end of the file makes the parse throw |
| SyntaxTrees.RawFirstIsLexed | src/Violet.Language/Syntax/SyntaxTree.cs:186-198 | the first token `ParseTokens` reads exists and is of a kind the tokenizer produces |
| SyntaxTrees.ParentEntriesAre | src/Violet.Language/Syntax/SyntaxTree.cs:72-79 | the parent map holds exactly the nodes below the root, never the root, each mapped to the node it is a child of |
| SyntaxTrees.ChildEntriesAre | src/Violet.Language/Syntax/SyntaxTree.cs:74-78 | after the first `k` children, the map holds exactly those children and the nodes below them |
| SyntaxTrees.JoinEntries | src/Violet.Language/Syntax/SyntaxTree.cs:76-77 | one more child's entry and those below it extend the map |
| SyntaxTrees.BelowChild | src/Violet.Language/Syntax/SyntaxTree.cs:74-78 | the nodes below a child are its own path and the paths below it |
| SyntaxTrees.NodeAtSnoc | src/Violet.Language/Syntax/SyntaxNode.cs:42 | one step below a node is its child |
| SyntaxTrees.ParentIsParent | src/Violet.Language/Syntax/SyntaxTree.cs:43-64 | corrected `GetParent`: it answers for exactly the nodes of the tree, none for the root, and for any other node the node it is a child of |
| SyntaxTrees.ParentAsWritten | src/Violet.Language/Syntax/SyntaxTree.cs:47-64 | as written: the root's path throws "not a member", and a parent found is the path one step up |
| SyntaxTrees.Parent | src/Violet.Language/Syntax/SyntaxTree.cs:43-64 | corrected: the root has no parent, and every other path is answered as written |
| SyntaxTrees.RootParentAsWrittenThrows | src/Violet.Language/Syntax/SyntaxTree.cs:57-63 | as written, asking for the root's parent throws; corrected, it is none |
| SyntaxTrees.ParentAsWrittenAgrees | src/Violet.Language/Syntax/SyntaxTree.cs:47-64 | for every other node the two agree |
| SyntaxTrees.FindParentsStep | src/Violet.Language/Syntax/SyntaxTree.cs:74-78 | one turn of the `FindParents` loop adds the child's entry and the entries below it |
| SyntaxTrees.SyntaxTree.constructor | src/Violet.Language/Syntax/SyntaxTree.cs:37-41 | a new tree has its text, no root, no diagnostics and no parent map |
| SyntaxTrees.SyntaxTree.Initialize | src/Violet.Language/Syntax/SyntaxTree.cs:66-70 | sets the root and the diagnostics, nothing else |
| SyntaxTrees.SyntaxTree.Parse | src/Violet.Language/Syntax/SyntaxTree.cs:93-159 | returns exactly the as-written outcome `ParseAsWritten`, the loop folding `BadToken`; a parsed tree holds its root and diagnostics |
| SyntaxTrees.SyntaxTree.ParseCollected | src/Violet.Language/Syntax/SyntaxTree.cs:148-157 | the parser over the collected tokens; the tree gets the tokenizer's diagnostics, then the parser's |
| SyntaxTrees.SyntaxTree.CollectTokens | src/Violet.Language/Syntax/SyntaxTree.cs:98-146 | the `do ... while` loop, folding `BadToken` as written, gives exactly the token loop's tokens and diagnostics, and fails where it fails |
| SyntaxTrees.SyntaxTree.FoldLeading | src/Violet.Language/Syntax/SyntaxTree.cs:118-141 | the new leading trivia are the token's own, then each collected token's leading trivia, text as skipped text and trailing trivia |
| SyntaxTrees.SyntaxTree.ParseTokens | src/Violet.Language/Syntax/SyntaxTree.cs:180-202 | the loop gives exactly the tokens and diagnostics `ReadTokens` describes, read by the as-written tokenizer |
| SyntaxTrees.SyntaxTree.FindParents | src/Violet.Language/Syntax/SyntaxTree.cs:72-79 | adds exactly the parent entries of the nodes below the node |
| SyntaxTrees.SyntaxTree.GetParent | src/Violet.Language/Syntax/SyntaxTree.cs:47-64 | answers as the as-written `ParentAsWritten`, so the root's path throws; the map, once built, is kept, and the root and diagnostics do not change |
| SyntaxTrees.SyntaxTree.Format | src/Violet.Language/Syntax/SyntaxTree.cs:204-210 | the lines are the dump of the root |
| Scopes.Find | src/Violet.Language/Binding/BoundScope.cs:37 | a name is found in a table exactly when the table declares it, and what is found is a symbol of that name from the table |
| Scopes.FindIndexed | src/Violet.Language/Binding/BoundScope.cs:12-37 | in a table with distinct names, looking up a symbol's name gives that symbol |
| Scopes.FindAfterAdd | src/Violet.Language/Binding/BoundScope.cs:28-37 | after adding a symbol under a new name it is found under that name, and every other name resolves as before |
| Scopes.FunctionsOf | src/Violet.Language/Binding/BoundScope.cs:32-33 | the function symbols of a table are exactly its symbols that are functions |
| Scopes.FunctionsOfFunctions | src/Violet.Language/Binding/BoundScope.cs:32-33 | a table of functions only lists them all, in order |
| Scopes.Resolve | src/Violet.Language/Binding/BoundScope.cs:35-43 | a symbol found has the name looked up and is declared in one of the chain's tables |
| Scopes.ResolveFindsDeclared | src/Violet.Language/Binding/BoundScope.cs:35-43 | a name resolves exactly when some scope of the chain declares it |
| Scopes.ResolveNearest | src/Violet.Language/Binding/BoundScope.cs:35-43 | the nearest scope declaring the name decides what it resolves to |
| Scopes.EmptyTableIsTransparent | src/Violet.Language/Binding/BoundScope.cs:35-43 | an inner scope declaring nothing changes no resolution |
| Scopes.InnerShadowsOuter | src/Violet.Language/Binding/BoundScope.cs:37-42 | a declaration in an inner scope hides every outer one of its name |
| Scopes.BoundScope.Frames | src/Violet.Language/Binding/BoundScope.cs:12-13 | the tables of the chain start with this scope's own |
| Scopes.BoundScope.constructor | src/Violet.Language/Binding/BoundScope.cs:10-13 | a new scope has an empty table below its parent, whose tables are unchanged |
| Scopes.BoundScope.TryDeclare | src/Violet.Language/Binding/BoundScope.cs:21-30 | true, and the symbol added, exactly when the name is not in this scope's own table; otherwise nothing changes; the ancestors never change |
| Scopes.BoundScope.TryDeclareFunction | src/Violet.Language/Binding/BoundScope.cs:15-16 | the same for a function symbol |
| Scopes.BoundScope.GetDeclaredFunctions | src/Violet.Language/Binding/BoundScope.cs:18-33 | exactly the function symbols of this scope's own table |
| Scopes.BoundScope.TryResolve | src/Violet.Language/Binding/BoundScope.cs:35-43 | the symbol the chain of tables gives, nearest scope first |
| BoundTree.MakeLiteral | src/Violet.Language/Binding/BoundExpression.cs:20-34 | a literal is built exactly from a string value, has type `string` and that value as its constant; a number value throws `Unknown literal type` |
| BoundTree.Type | src/Violet.Language/Binding/BoundExpression.cs:10-23 | a call has its function's return type, a literal the string type, and apart from calls exactly the error expressions have the error type |
| BoundTree.ConstantValue | src/Violet.Language/Binding/BoundExpression.cs:11-24 | only a literal has a constant, which is its value, of type `string` and with no children; calls and error expressions have none |
| BoundTree.ExpressionSelf | src/Violet.Language/Binding/BoundExpression.cs:12-58 | a literal's and a call's line end in ` : ` and the type's name, and a literal's line has no raw line break |
| BoundTree.LiteralSelfHasNoBreak | src/Violet.Language/Binding/BoundExpression.cs:35-50 | the line of a literal has no raw line break, whatever its string value |
| BoundTree.ExpressionLines | src/Violet.Language/Binding/BoundNode.cs:5-13 | the first line is the indent and the node's own text; the dump is one line exactly when there are no arguments below it |
| BoundTree.StatementLines | src/Violet.Language/Binding/BoundStatement.cs:8-29 | an expression statement writes its own line and then its expression one level deeper; only a block can write nothing |
| BoundTree.ProgramLines | src/Violet.Language/Binding/BoundProgram.cs:11-27 | the dump starts with `Program` at the indent and has at least one header line per function |
| BoundTree.ExpressionLineCount | src/Violet.Language/Binding/BoundNode.cs:5-13 | an expression's dump has one line per node |
| BoundTree.ArgumentLineCount | src/Violet.Language/Binding/BoundExpression.cs:60-66 | the arguments' lines are one per node below them |
| BoundTree.ExpressionLinesAreIndented | src/Violet.Language/Binding/BoundNode.cs:5-13 | every line of an expression's dump starts with its indent |
| BoundTree.ArgumentLinesAreIndented | src/Violet.Language/Binding/BoundExpression.cs:60-66 | every line of the arguments' dump starts with their indent |
| BoundTree.StatementLinesAreIndented | src/Violet.Language/Binding/BoundStatement.cs:8-29 | every line of a statement's dump starts with its indent |
| BoundTree.BlockLinesAreIndented | src/Violet.Language/Binding/BoundStatement.cs:22-28 | every line of a block's statements starts with the block's indent |
| BoundTree.NestedBlockIsInvisible | src/Violet.Language/Binding/BoundStatement.cs:22-28 | a block writes no line of its own: a block holding only a block dumps as the inner one |
| BoundTree.LiteralLineIsOneLine | src/Violet.Language/Binding/BoundExpression.cs:35-50 | a literal's line has no raw line break whatever its value, since the value is unescaped |
| BoundTree.ProgramLinesAreIndented | src/Violet.Language/Binding/BoundProgram.cs:11-27 | the program's dump starts with `Program` and every line starts with its indent |
| BoundTree.BodiesLinesAreIndented | src/Violet.Language/Binding/BoundProgram.cs:14-24 | every function header and body line starts with the function indent |
| BoundTree.FormatExpression | src/Violet.Language/Binding/BoundNode.cs:5-17 | writes exactly the expression's lines, after what was written before |
| BoundTree.FormatStatement | src/Violet.Language/Binding/BoundStatement.cs:8-29 | writes exactly the statement's lines, after what was written before |
| BoundTree.FormatProgram | src/Violet.Language/Binding/BoundProgram.cs:11-27 | writes exactly the program's lines, the entry point marked, and returns true |
| Writers.Spaces | src/Violet.Language/Binding/BoundNode.cs:8 | `new string(' ', n)`: exactly `n` spaces |
| Writers.LineWriter.constructor | src/Violet.Language/Binding/BoundProgram.cs:11 | a writer starts empty |
| Writers.LineWriter.WriteLine | src/Violet.Language/Binding/BoundProgram.cs:13 | appends exactly one line |
| Binding.ExpressionBinding | src/Violet.Language/Binding/Binder.cs:102-152 | a bound expression keeps its syntax; a literal binds exactly when it holds a string; names, unary and binary expressions throw; a call becomes an error expression, with exactly one diagnostic, exactly when its name does not resolve to a function; an unresolved name gives `UndefinedFunction` and a resolved non-function `NotCallable` at the identifier, both without binding the arguments; a bound call's callee is the symbol the name resolves to, and its arguments and diagnostics are those of binding the argument list |
| Binding.ItemsShrink | src/Violet.Language/Syntax/ExpressionSyntax.cs:64 | the arguments of a call are smaller than the call |
| Binding.ArgumentsBinding | src/Violet.Language/Binding/Binder.cs:142-146 | the argument loop binds at most one expression per item of the list |
| Binding.StatementBinding | src/Violet.Language/Binding/Binder.cs:83-100 | an expression statement binds to an expression statement of that syntax; a block to a block of that syntax |
| Binding.BlockBinding | src/Violet.Language/Binding/Binder.cs:154-170 | a block binds to a block statement holding its syntax |
| Binding.StatementsBinding | src/Violet.Language/Binding/Binder.cs:161-164 | the statement loop binds exactly one statement per statement of the block |
| Binding.ExpressionScopeIsTransparent | src/Violet.Language/Binding/Binder.cs:159 | an empty scope below the current one changes nothing in binding an expression |
| Binding.ArgumentsScopeIsTransparent | src/Violet.Language/Binding/Binder.cs:159 | the same for a call's arguments |
| Binding.StatementScopeIsTransparent | src/Violet.Language/Binding/Binder.cs:159 | the same for a statement |
| Binding.StatementsScopeIsTransparent | src/Violet.Language/Binding/Binder.cs:159 | the same for a list of statements |
| Binding.BlockBindsInEnclosingScope | src/Violet.Language/Binding/Binder.cs:154-170 | a block's statements bind as in the enclosing scope, since the block's scope declares nothing |
| Binding.BoundFromCons | src/Violet.Language/Binding/Binder.cs:143-146 | a bound argument followed by the rest were bound from the syntax, one for one |
| Binding.ArgumentsFollowSyntax | src/Violet.Language/Binding/Binder.cs:142-146 | the bound arguments are the call's arguments, in order, with no separator |
| Binding.CallDiagnosticsAppend | src/Violet.Language/Binding/Binder.cs:126-138 | diagnostics about calls, joined, are still about calls |
| Binding.ConsDiagnostics | src/Violet.Language/Binding/Binder.cs:142-146 | a node bound before the rest puts its diagnostics first |
| Binding.ExpressionDiagnostics | src/Violet.Language/Binding/Binder.cs:102-152 | binding an expression reports exactly one diagnostic per error expression it builds, each an `UndefinedFunction` or `NotCallable` at a location in the tree's text |
| Binding.ArgumentDiagnostics | src/Violet.Language/Binding/Binder.cs:142-146 | the same for a call's arguments |
| Binding.StatementDiagnostics | src/Violet.Language/Binding/Binder.cs:83-100 | the same for a statement |
| Binding.StatementsDiagnostics | src/Violet.Language/Binding/Binder.cs:161-164 | the same for a block's statements |
| Binding.MembersOf | src/Violet.Language/Binding/Binder.cs:33-34 | each member of a root, with its tree's text |
| Binding.Declarations | src/Violet.Language/Binding/Binder.cs:33-34 | the members of every tree are read, and reading them throws exactly when some tree has no root |
| Binding.DeclareStep | src/Violet.Language/Binding/Binder.cs:172-185 | a new name adds the function and reports nothing; a name already in the scope leaves the table as it is and reports one `SymbolAlreadyDeclared` |
| Binding.DeclareAll | src/Violet.Language/Binding/Binder.cs:35-39 | the declaration loop adds at most one symbol per declaration, and none exactly when there is no declaration |
| Binding.DeclaredNamesAreDistinct | src/Violet.Language/Binding/Binder.cs:35-39 | declaring keeps the names of the global scope distinct, and every symbol in it is the function of a declaration |
| Binding.FunctionsFor | src/Violet.Language/Binding/Binder.cs:174-177 | one `void` function symbol per declaration, in order |
| Binding.FunctionsForSnoc | src/Violet.Language/Binding/Binder.cs:35-39 | one more declaration adds one more function |
| Binding.DeclarationsAreAccounted | src/Violet.Language/Binding/Binder.cs:35-39 | every declaration either adds one symbol or reports one duplicate, and every report is a `SymbolAlreadyDeclared` |
| Binding.DeclaredIffSomeDeclaration | src/Violet.Language/Binding/Binder.cs:35-39 | a name is declared exactly when some declaration has it |
| Binding.FirstDeclarationWins | src/Violet.Language/Binding/Binder.cs:178-184 | the function a name resolves to in the global table is that of its first declaration |
| Binding.FirstDeclaration | src/Violet.Language/Binding/Binder.cs:35-39 | the index of the first declaration of a name, if any |
| Binding.ResolveBuiltins | src/Violet.Language/Binding/Binder.cs:187-199 | a name not declared by the module resolves to `Print` exactly when it is `Print` |
| Binding.ResolveInModule | src/Violet.Language/Binding/Binder.cs:17-44 | in a module's global scope a name resolves to the function of its first declaration; only an undeclared name falls through to the builtins, so a user's `Print` hides the builtin one |
| Binding.ModuleBinding | src/Violet.Language/Binding/Binder.cs:17-44 | with an error among the trees' diagnostics, exactly those and an empty global scope with no parent; otherwise the diagnostics start with the trees'; it throws exactly when there is no error and some tree has no root |
| Binding.EntryPoint | src/Violet.Language/Binding/Binder.cs:75 | an entry point exists exactly when some function with a body is named `Main`, and it is one of them |
| Binding.ProgramBinding | src/Violet.Language/Binding/Binder.cs:48-79 | a module with errors gives a program with its diagnostics, no bodies and no entry point; for a module without errors the program's bodies and diagnostics are exactly those of binding the global functions' bodies |
| Binding.BodyBinding | src/Violet.Language/Binding/Binder.cs:64-66 | a function without its declaration fails the `Require`; a bound body belongs to that function and is the block of its declaration's body |
| Binding.BodiesBinding | src/Violet.Language/Binding/Binder.cs:62-73 | the body loop binds exactly one body per function |
| Binding.BodiesFollowFunctions | src/Violet.Language/Binding/Binder.cs:62-73 | every function gets exactly one body, in the order of the table |
| Binding.ProgramHasEveryFunction | src/Violet.Language/Binding/Binder.cs:59-80 | a program from a module without errors has one body per function of the global table, in order, and an entry point named `Main` from that table exactly when the table has one |
| Binding.Binder.constructor | src/Violet.Language/Binding/Binder.cs:8-12 | a binder over the scope, with no diagnostics |
| Binding.Binder.BindExpression | src/Violet.Language/Binding/Binder.cs:102-119 | binds exactly as `ExpressionBinding`, appending its diagnostics |
| Binding.Binder.BindCallExpression | src/Violet.Language/Binding/Binder.cs:121-152 | binds a call exactly as `ExpressionBinding`, appending its diagnostics |
| Binding.Binder.BindArguments | src/Violet.Language/Binding/Binder.cs:142-146 | the argument loop binds exactly as the specification, appending its diagnostics |
| Binding.Binder.BindStatement | src/Violet.Language/Binding/Binder.cs:83-100 | binds exactly as `StatementBinding`; on success the scope is the one before |
| Binding.Binder.BindBlockStatement | src/Violet.Language/Binding/Binder.cs:154-170 | binds exactly as `BlockBinding` in a child scope, and on success pops back to the scope before |
| Binding.Binder.BindFunctionDeclaration | src/Violet.Language/Binding/Binder.cs:172-185 | the scope's table and the diagnostics change exactly as `DeclareStep` says; the ancestors do not change |
| Binding.Binder.CreateRootScope | src/Violet.Language/Binding/Binder.cs:187-199 | a scope with no parent holding exactly the builtins |
| Binding.Binder.BindFunctionDeclarations | src/Violet.Language/Binding/Binder.cs:35-39 | the loop leaves exactly the `DeclareAll` table and diagnostics |
| Binding.Binder.BindModule | src/Violet.Language/Binding/Binder.cs:17-44 | gives exactly the `ModuleBinding` diagnostics and global scope chain, and throws where it throws |
| Binding.Binder.BindFunctionBody | src/Violet.Language/Binding/Binder.cs:64-66 | a fresh binder over the global scope binds the body of its declaration |
| Binding.Binder.BindFunctionBodies | src/Violet.Language/Binding/Binder.cs:62-73 | the loop binds exactly the bodies the specification gives, appending their diagnostics |
| Binding.Binder.BindProgram | src/Violet.Language/Binding/Binder.cs:49-81 | gives exactly the `ProgramBinding` program |

## Left out

- Reading files, the console, code generation and the command-line driver are not part of this model: `SyntaxTree.Load`, the emitter, metadata references, `violetc` and the `Compilation` glue. A syntax tree is handed to the binder as a value.
- `Interlocked.CompareExchange` in `GetParent`: the parent map is built and cached from a single thread, so concurrent first calls are not modelled.
- The parent map is keyed by the path of child indices from the root, not by record equality of `SyntaxNode`s. Two equal nodes at different places therefore get separate entries. In the source, `parents.Add` (Syntax/SyntaxTree.cs:76) throws on a key that is already present, so `GetParent` of a tree holding two equal nodes throws; the model leaves that exception out.
- `ImmutableDictionary` iteration order in `BoundProgram.FormatTo` is hash order in .NET. It is modelled as declaration order.
- `char.IsLetter` and `char.IsDigit` are restricted to ASCII letters and digits. `char.IsWhiteSpace` is the explicit list of Unicode White_Space characters. No other Unicode category is modelled.
- `string.Format` is modelled only for `{i}` placeholders and the `{{`/`}}` escapes. Alignment and format strings inside placeholders are not modelled.
- `BuiltinFunctions.GetAll` collects its builtins by reflection. The model uses the explicit list `[Print]`.
- The `RequireExtensions` checks become `Fatal` outcomes rather than exceptions carrying messages.
- `TextWindow`'s debugger display and `SyntaxToken.ToString` are debugging aids and are left out.
- Some source loops are split into separate methods so that each proof stays small. `SyntaxTree.Parse` becomes `CollectTokens` and `ParseCollected`. Within the binder, the argument loop becomes `BindArguments`, the declaration loop `BindFunctionDeclarations`, and the body loop `BindFunctionBody` and `BindFunctionBodies`.
- When binding a block throws, the binder's scope is not restored: `BindBlockStatement` pops the child scope only after its loop (Binding/Binder.cs:159-167). The model gives the `Fatal` outcome and says nothing of the scope, since the exception ends the compilation.
- The `SyntaxKind` definition is not part of this model. The kinds that the parser uses but the tokenizer and `SyntaxFacts` never mention are added to the enumeration: `FunKeyword`, `EndKeyword`, `SemicolonToken`, `FunctionDeclaration` and `BlockStatement`. The node kinds' ordinals therefore differ from the C# enumeration's.
- Keywords are never lexed, because `IsKeyword` is a stub in the source. No text can therefore produce the `fun`, `end` or `;` tokens the parser expects. This is modelled as written, not as a finding: the source marks it as unfinished.
- `Statement` expects a semicolon that its record cannot hold. The model expects the token and then drops it.
- `BlockStatementSyntax` and `SeparatedSyntaxList` are not part of this model. They are taken to hold the statements, and the arguments with their separators, in source order.
- `BlockStatement` loops forever when it meets the end of the file before the closing keyword. The model returns `Diverges` at the first repeated state rather than looping (`ParserProperties.BlockAtEndOfFileDiverges`).
- `BinaryExpression` is split into `LeftOperand` for the prefix operator case and `BinaryLoop` for the precedence loop.
- The `Parser` requires what `SyntaxTree.Parse` guarantees: a non-empty token list that ends in the end-of-file marker, and numeric and string tokens that carry their values.
- A `'\0'` character inside the text is read as the end of the file, because the window uses it as its sentinel. This is modelled as written: the tokenizer then stops at that character.
- `SyntaxTree.Format` without a root returns `ok = false` in the model. The source dereferences a null root there.
- SyntaxTrees.ReadTokensFrom: carries no `ensures` of its own, to keep the proofs that unfold it small; `ReadTokensStopsAtEndOfFile`, `StopsAtEndOfFile`, `IncludeEndOfFileAddsMarker` and `ReadTokensAppends` state what it computes.
- SyntaxTrees.TokenLoop: the same; `TokenLoopFoldsReadTokens`, `FoldsAlong`, `TokenLoopEnds` and `AsWrittenIsUnfolded` state what it computes.
- SyntaxTrees.ParentEntries: the same; `ParentEntriesAre` and `ChildEntriesAre` state which entries the map holds.
- SyntaxFacts.IsTrivia: a plain predicate without `ensures`; `KindRanges` and `ClassificationPartitions` state which kinds it holds for.
- SyntaxFacts.IsToken: the same; `KindRanges`, `ClassificationPartitions` and `TokensExact` state which kinds it holds for.

## Findings

| source | as written | input that shows it | evidently intended | confidence | as-written member | corrected member |
|---|---|---|---|---|---|---|
| src/Violet.Language/Diagnostic.cs:25-29 | `string.Format(MessageFormat, messageArgs)` passes the argument list as one object, so `{0}` shows `System.Object[]` and `{1}` raises `FormatException` | any diagnostic with a message argument, such as an invalid escape sequence `x` or an unexpected token | each placeholder `{i}` shows the i-th argument | not executed | Diagnostics.DescriptorFormatHidesEscapeSequence | Diagnostics.DescriptorFormatWithArgumentsShowsArgument |
| src/Violet.Language/Syntax/SyntaxTree.cs:57-63 | the root is never entered in the parent map, so `GetParent(Root)` throws "This node is not a member of this tree" | the root of any parsed tree | the root has no parent: `null`, as the method's summary says | not executed | SyntaxTrees.RootParentAsWrittenThrows | SyntaxTrees.ParentIsParent |
| src/Violet.Language/Syntax/SyntaxTree.cs:108 | the loop collects tokens of kind `BadToken`, which the tokenizer never produces, so unexpected characters reach the parser as tokens | the text `$` followed by the end of the file | tokens of unexpected characters (`UnknownMarker`) become skipped-text trivia of the next token | not executed | SyntaxTrees.AsWrittenFoldsNothing | SyntaxTrees.ParseTextFoldsUnknown |
| src/Violet.Language/Syntax/Tokenizer.cs:83-104 | `ReadMultiLineComment` reads up to the first `*` and, when it is not followed by `/`, returns without emitting; the characters read stay in the window, so the next reader emits them as part of its trivia (here white space) or the final `Reset` gives them back to the token reader | the comment `/* * */`: the leading trivia become one `WhitespaceTrivia` over `/* * ` and the next token is the third `*` | a block comment runs to the first `*/` | not executed | LexerExamples.StarInsideCommentToken | LexerExamples.BlockCommentRestCloses |
