/**
 * The reference definition of the tokenizer: every step it takes, written
 * as a function from the state before the step to the state after it.
 * The state is the text window, the trivia collected so far and every
 * diagnostic reported so far. The `Tokenizer` class is proved to take
 * exactly these steps.
 */
module Lexer {

  import opened Wrappers
  import opened Strings
  import opened Text
  import opened TextWindows
  import opened SyntaxFacts
  import opened Diagnostics
  import opened Syntax

  /** The tokenizer between two steps. */
  datatype LexState = LexState(w: Window, trivia: seq<SyntaxTrivia>, diags: seq<Diagnostic>)

  /** The state before the first token: an empty window at the start of the text. */
  function Start(): LexState {
    LexState(Window(0, 0), [], [])
  }

  predicate IsLineBreak(c: char) { c == '\r' || c == '\n' }

  predicate IsStar(c: char) { c == '*' }

  predicate IsIdentifierPart(c: char) { IsLetter(c) || IsDigit(c) || c == '_' }

  predicate IsNumberPart(c: char) { IsDigit(c) || c == '_' }

  /** The state with one more diagnostic. */
  function Report(s: LexState, descriptor: Descriptor, location: TextLocation, args: seq<Arg>): (r: LexState)
    ensures r.w == s.w && r.trivia == s.trivia
    ensures r.diags == s.diags + [Diagnostic(descriptor, location, args)]
  {
    s.(diags := s.diags + [Diagnostic(descriptor, location, args)])
  }

  // ---------------------------------------------------------------------
  // Trivia
  // ---------------------------------------------------------------------

  /**
   * The trivia lie back to back in the text from position `p` to position
   * `q`, each holding exactly the characters at its position.
   */
  predicate Contiguous(t: string, p: nat, ts: seq<SyntaxTrivia>, q: nat)
    decreases |ts|
  {
    if ts == [] then p == q
    else
      ts[0].position == p && p + |ts[0].text| <= |t| && t[p..p + |ts[0].text|] == ts[0].text
      && Contiguous(t, p + |ts[0].text|, ts[1..], q)
  }

  lemma {:induction false} ContiguousSnoc(t: string, p: nat, ts: seq<SyntaxTrivia>, q: nat, tr: SyntaxTrivia)
    requires Contiguous(t, p, ts, q)
    requires tr.position == q && q + |tr.text| <= |t| && t[q..q + |tr.text|] == tr.text
    ensures Contiguous(t, p, ts + [tr], q + |tr.text|)
    decreases |ts|
  {
    if ts == [] {
      assert ts + [tr] == [tr];
      assert [tr][1..] == [];
    } else {
      assert (ts + [tr])[1..] == ts[1..] + [tr];
      ContiguousSnoc(t, p + |ts[0].text|, ts[1..], q, tr);
    }
  }

  /** `EmitTrivia`: the window's content becomes a trivia of `kind`, and the window is committed. */
  function Emit(source: SourceText, s: LexState, kind: SyntaxKind): (r: LexState)
    requires Fits(source.text, s.w)
    ensures r.w == Committed(s.w) && r.diags == s.diags
    ensures r.trivia == s.trivia + [SyntaxTrivia(kind, s.w.start, WindowContent(source.text, s.w))]
  {
    LexState(Committed(s.w), s.trivia + [SyntaxTrivia(kind, s.w.start, WindowContent(source.text, s.w))], s.diags)
  }

  /** Committing a window as trivia keeps the trivia back to back. */
  lemma EmitIsContiguous(source: SourceText, p: nat, s: LexState, kind: SyntaxKind)
    requires Fits(source.text, s.w) && Contiguous(source.text, p, s.trivia, s.w.start)
    ensures Contiguous(source.text, p, Emit(source, s, kind).trivia, Emit(source, s, kind).w.start)
  {
    ContiguousSnoc(source.text, p, s.trivia, s.w.start,
                   SyntaxTrivia(kind, s.w.start, WindowContent(source.text, s.w)));
  }

  /**
   * `ReadSingleLineComment`: `//`, everything up to the line break, then
   * the line break itself (`\r`, `\n` or `\r\n`) unless the text ends first.
   */
  function SingleLineComment(source: SourceText, s: LexState): (r: LexState)
    requires Fits(source.text, s.w)
    requires WindowPeek(source.text, s.w, 0) == '/' && WindowPeek(source.text, s.w, 1) == '/'
    ensures r.diags == s.diags && Fits(source.text, r.w) && r.w.length == 0 && r.w.start >= s.w.End() + 2
    ensures |r.trivia| == |s.trivia| + 1 && r.trivia[..|s.trivia|] == s.trivia
    ensures r.trivia[|s.trivia|].kind == SingleLineCommentTrivia
  {
    var t := source.text;
    var w1 := ScannedUntil(t, Extended(t, s.w, 2), IsLineBreak);
    var w2 :=
      if AtEnd(t, w1) then w1
      else
        var w3 := Extended(t, w1, 1);
        if WindowLast(t, w3) == '\r' && WindowPeek(t, w3, 0) == '\n' then Extended(t, w3, 1) else w3;
    Emit(source, s.(w := w2), SingleLineCommentTrivia)
  }

  /** What a trivia reader did: nothing more to read, read something, or failed an assertion. */
  datatype TriviaStep = Stop | Continue(next: LexState) | Crash

  /**
   * `ReadMultiLineComment` as the source writes it: `/` `*`, everything up to
   * the first `*`, and then only if a `/` follows that `*` is a block
   * comment emitted. When it is not, the characters read stay in the window
   * and the next trivia reader carries on from them: they become part of
   * the next trivia emitted, or the final `Reset` gives them back to the
   * token reader.
   */
  function MultiLineCommentAsWritten(source: SourceText, s: LexState): (r: TriviaStep)
    requires Fits(source.text, s.w)
    requires WindowPeek(source.text, s.w, 0) == '/' && WindowPeek(source.text, s.w, 1) == '*'
    ensures !r.Stop?
    ensures r.Continue? ==> Fits(source.text, r.next.w) && r.next.w.End() >= s.w.End() + 2
    ensures r.Continue? ==> |r.next.diags| >= |s.diags| && r.next.diags[..|s.diags|] == s.diags
    ensures r.Continue? && r.next.trivia != s.trivia ==>
      && r.next.w.length == 0
      && |r.next.trivia| == |s.trivia| + 1 && r.next.trivia[..|s.trivia|] == s.trivia
      && r.next.trivia[|s.trivia|].kind == BlockCommentTrivia
      && r.next.trivia[|s.trivia|].position == s.w.start
    ensures r.Continue? && r.next.trivia == s.trivia ==>
      r.next.w.start == s.w.start && r.next.w.End() >= s.w.End() + 3 && r.next.diags == s.diags
  {
    var t := source.text;
    var w1 := ScannedUntil(t, Extended(t, s.w, 2), IsStar);
    if AtEnd(t, w1) then
      Continue(Emit(source, Report(s.(w := w1), UnexpectedEndOfFile, WindowRight(source, w1), [TextArg("*/")]),
                    BlockCommentTrivia))
    else if WindowPeek(t, w1, 0) != '*' then Crash
    else
      var w2 := Extended(t, w1, 1);
      if WindowPeek(t, w2, 0) == '/' then Continue(Emit(source, s.(w := Extended(t, w2, 1)), BlockCommentTrivia))
      else Continue(s.(w := w2))
  }

  /**
   * The block comment reader as intended, which the tokenizer does not run.
   * The rest of a block comment once `/` `*` is in the window: up to the next
   * `*`; a `/` after it ends the comment, any other character continues it.
   * The end of the text inside the comment reports `UnexpectedEndOfFile` over
   * the last character read and keeps what was read as the comment. A '\0'
   * character where the `*` is expected fails the `Assert('*')`.
   */
  function BlockCommentRest(source: SourceText, s: LexState): (r: TriviaStep)
    requires Fits(source.text, s.w)
    ensures !r.Stop?
    ensures r.Continue? ==> Fits(source.text, r.next.w) && r.next.w.length == 0 && r.next.w.start >= s.w.End()
    ensures r.Continue? ==>
      |r.next.trivia| == |s.trivia| + 1 && r.next.trivia[..|s.trivia|] == s.trivia
      && r.next.trivia[|s.trivia|].kind == BlockCommentTrivia
      && r.next.trivia[|s.trivia|].position == s.w.start
    ensures r.Continue? ==> |r.next.diags| >= |s.diags| && r.next.diags[..|s.diags|] == s.diags
    decreases |source.text| - s.w.End()
  {
    var t := source.text;
    var w1 := ScannedUntil(t, s.w, IsStar);
    if AtEnd(t, w1) then
      Continue(Emit(source, Report(s.(w := w1), UnexpectedEndOfFile, WindowRight(source, w1), [TextArg("*/")]),
                    BlockCommentTrivia))
    else if WindowPeek(t, w1, 0) != '*' then Crash
    else
      var w2 := Extended(t, w1, 1);
      if WindowPeek(t, w2, 0) == '/' then Continue(Emit(source, s.(w := Extended(t, w2, 1)), BlockCommentTrivia))
      else BlockCommentRest(source, s.(w := w2))
  }

  /** `ReadMultiLineComment` as intended: reading on to the first `*` `/`. */
  function MultiLineComment(source: SourceText, s: LexState): (r: TriviaStep)
    requires Fits(source.text, s.w)
    requires WindowPeek(source.text, s.w, 0) == '/' && WindowPeek(source.text, s.w, 1) == '*'
    ensures !r.Stop?
    ensures r.Continue? ==> Fits(source.text, r.next.w) && r.next.w.length == 0 && r.next.w.start >= s.w.End() + 2
  {
    BlockCommentRest(source, s.(w := Extended(source.text, s.w, 2)))
  }

  /** `ReadWhitespace`: the run of white space as one trivia. */
  function Whitespace(source: SourceText, s: LexState): (r: LexState)
    requires Fits(source.text, s.w)
    ensures r.w == Window(ScanWhile(source.text, s.w.End(), IsWhiteSpace), 0) && r.diags == s.diags
    ensures r.trivia == s.trivia + [SyntaxTrivia(WhitespaceTrivia, s.w.start, source.text[s.w.start..r.w.start])]
  {
    Emit(source, s.(w := ScannedWhile(source.text, s.w, IsWhiteSpace)), WhitespaceTrivia)
  }

  /** `ReadNewline`: the run of `\r` and `\n` characters as one trivia. */
  function Newline(source: SourceText, s: LexState): (r: LexState)
    requires Fits(source.text, s.w)
    ensures r.w == Window(ScanWhile(source.text, s.w.End(), IsLineBreak), 0) && r.diags == s.diags
    ensures r.trivia == s.trivia + [SyntaxTrivia(NewlineTrivia, s.w.start, source.text[s.w.start..r.w.start])]
  {
    Emit(source, s.(w := ScannedWhile(source.text, s.w, IsLineBreak)), NewlineTrivia)
  }

  /**
   * `ReadOneTrivia`: the next character picks the reader; `//` and `/` `*`
   * start comments, `\r` and `\n` a newline run, other white space a
   * white-space run; anything else is not trivia.
   */
  function ReadOneTrivia(source: SourceText, s: LexState): (r: TriviaStep)
    requires Fits(source.text, s.w)
    ensures r.Continue? ==> Fits(source.text, r.next.w) && r.next.w.End() > s.w.End()
  {
    var t := source.text;
    var c := WindowPeek(t, s.w, 0);
    if c == '\0' then Stop
    else if c == '/' then
      var la := WindowPeek(t, s.w, 1);
      if la == '/' then Continue(SingleLineComment(source, s))
      else if la == '*' then MultiLineCommentAsWritten(source, s)
      else Stop
    else if c == '\r' || c == '\n' then Continue(Newline(source, s))
    else if IsWhiteSpace(c) then Continue(Whitespace(source, s))
    else Stop
  }

  /** The `while (ReadOneTrivia())` loop, then `Reset`. */
  function ReadTriviaLoop(source: SourceText, s: LexState): (r: Result<LexState>)
    requires Fits(source.text, s.w)
    ensures r.Ok? ==> Fits(source.text, r.value.w) && r.value.w.length == 0 && r.value.w.start >= s.w.start
    decreases |source.text| - s.w.End()
  {
    match ReadOneTrivia(source, s)
    case Stop => Ok(s.(w := Emptied(s.w)))
    case Crash => Fatal("Trace.Assert failed: expected '*'")
    case Continue(next) => ReadTriviaLoop(source, next)
  }

  /** `ReadTrivia`: clears the trivia builder, then runs the loop. */
  function ReadTrivia(source: SourceText, s: LexState): (r: Result<LexState>)
    requires Fits(source.text, s.w)
    ensures r.Ok? ==> Fits(source.text, r.value.w) && r.value.w.length == 0 && r.value.w.start >= s.w.start
  {
    ReadTriviaLoop(source, s.(trivia := []))
  }

  // ---------------------------------------------------------------------
  // Tokens
  // ---------------------------------------------------------------------

  /** What a token reader leaves: the state with the token's text in the window, its kind and value. */
  datatype TokenScan = TokenScan(next: LexState, kind: SyntaxKind, value: Option<TokenValue>)

  /** The facts every token reader keeps: same start and trivia, a grown window, diagnostics only added. */
  predicate Grows(source: SourceText, s: LexState, r: LexState) {
    Fits(source.text, r.w) && r.w.start == s.w.start && r.w.End() >= s.w.End()
    && r.trivia == s.trivia && |r.diags| >= |s.diags| && r.diags[..|s.diags|] == s.diags
  }

  /** `SingleCharacterToken`. */
  function SingleCharacter(source: SourceText, s: LexState, kind: SyntaxKind): (r: TokenScan)
    requires Fits(source.text, s.w)
    ensures Grows(source, s, r.next) && r.next.diags == s.diags
    ensures WindowPeek(source.text, s.w, 0) != '\0' ==> r.next.w.End() > s.w.End()
  {
    TokenScan(s.(w := Extended(source.text, s.w, 1)), kind, None)
  }

  /** `UpToTwoOperator` with one candidate second character. */
  function UpToTwo(source: SourceText, s: LexState, one: SyntaxKind, second: char, two: SyntaxKind): (r: TokenScan)
    requires Fits(source.text, s.w)
    ensures Grows(source, s, r.next) && r.next.diags == s.diags
    ensures WindowPeek(source.text, s.w, 0) != '\0' ==> r.next.w.End() > s.w.End()
  {
    var t := source.text;
    var w1 := Extended(t, s.w, 1);
    if WindowPeek(t, w1, 0) == second then TokenScan(s.(w := Extended(t, w1, 1)), two, None)
    else TokenScan(s.(w := w1), one, None)
  }

  /** `UpToTwoOperator` with two candidate second characters, tried in order. */
  function UpToTwoOfTwo(source: SourceText, s: LexState, one: SyntaxKind,
                        second1: char, two1: SyntaxKind, second2: char, two2: SyntaxKind): (r: TokenScan)
    requires Fits(source.text, s.w)
    ensures Grows(source, s, r.next) && r.next.diags == s.diags
    ensures WindowPeek(source.text, s.w, 0) != '\0' ==> r.next.w.End() > s.w.End()
  {
    var t := source.text;
    var w1 := Extended(t, s.w, 1);
    if WindowPeek(t, w1, 0) == second1 then TokenScan(s.(w := Extended(t, w1, 1)), two1, None)
    else if WindowPeek(t, w1, 0) == second2 then TokenScan(s.(w := Extended(t, w1, 1)), two2, None)
    else TokenScan(s.(w := w1), one, None)
  }

  /**
   * `ParseNumericLiteral`: an optional sign, then digits and `_`. The value
   * is the text without `_` read by `long.Parse`; on overflow it is
   * `long.MaxValue` and `IntegerLiteralTooLarge` is reported. A text
   * `long.Parse` rejects would throw.
   */
  function NumericLiteral(source: SourceText, s: LexState): (r: Result<TokenScan>)
    requires Fits(source.text, s.w)
    ensures r.Ok? ==> Grows(source, s, r.value.next) && r.value.kind == NumberToken
  {
    var t := source.text;
    var c := WindowPeek(t, s.w, 0);
    var w1 := if c == '-' || c == '+' then Extended(t, s.w, 1) else s.w;
    var w2 := ScannedWhile(t, w1, IsNumberPart);
    var text := WindowContent(t, w2);
    match ParseInt64(ReplaceChar(text, '_', ""))
    case Parsed(v) => Ok(TokenScan(s.(w := w2), NumberToken, Some(IntValue(v))))
    case Overflow =>
      Ok(TokenScan(Report(s.(w := w2), IntegerLiteralTooLarge, WindowLocation(source, w2), [TextArg(text)]),
                   NumberToken, Some(IntValue(Int64Max))))
    case BadFormat => Fatal("FormatException")
  }

  /** `ParsePlusMinus`: the compound operator, a signed number, or the operator. */
  function PlusMinus(source: SourceText, s: LexState, op: SyntaxKind, compound: SyntaxKind): (r: Result<TokenScan>)
    requires Fits(source.text, s.w)
    ensures r.Ok? ==> Grows(source, s, r.value.next)
    ensures r.Ok? ==> r.value.kind in {op, compound, NumberToken}
  {
    var t := source.text;
    var w1 := Extended(t, s.w, 1);
    if WindowPeek(t, w1, 0) == '=' then Ok(TokenScan(s.(w := Extended(t, w1, 1)), compound, None))
    else if IsDigit(WindowPeek(t, w1, 0)) then NumericLiteral(source, s.(w := w1))
    else Ok(TokenScan(s.(w := w1), op, None))
  }

  /** What the string reader leaves: the state and the literal's value. */
  datatype StringScan = StringScan(next: LexState, value: string)

  /**
   * `ReadStringLiteral`: the loop after the opening quote. `\"`, `\n` and
   * `\\` stand for a quote, a newline and a backslash; any other escape is
   * reported over its two characters and dropped. A raw line break is
   * given back to the text and ends the literal; so does the end of the
   * text or a '\0'. The closing quote ends it without a diagnostic.
   */
  function StringBody(source: SourceText, s: LexState, value: string): (r: StringScan)
    requires Fits(source.text, s.w)
    ensures Grows(source, s, r.next)
    decreases |source.text| - s.w.End()
  {
    var t := source.text;
    var c := WindowPeek(t, s.w, 0);
    var w1 := Extended(t, s.w, 1);
    if c == '"' then StringScan(s.(w := w1), value)
    else if c == '\\' then
      var e := WindowPeek(t, w1, 0);
      if e == '"' || e == 'n' || e == '\\' then
        StringBody(source, s.(w := Extended(t, w1, 1)), value + [if e == 'n' then '\n' else e])
      else if e == '\0' then
        StringScan(Report(s.(w := w1), UnterminatedStringLiteral, WindowLocation(source, w1), []), value)
      else
        var w2 := Extended(t, w1, 1);
        StringBody(source, Report(s.(w := w2), InvalidEscapeSequence,
                                  TextLocation(source, TextSpan(w2.End() - 2, 2)), [TextArg(['\\', e])]), value)
    else if c == '\r' || c == '\n' then
      var w2 := Shrunk(w1, 1);
      StringScan(Report(s.(w := w2), UnterminatedStringLiteral, WindowLocation(source, w2), []), value)
    else if c == '\0' then
      StringScan(Report(s.(w := w1), UnterminatedStringLiteral, WindowLocation(source, w1), []), value)
    else StringBody(source, s.(w := w1), value + [c])
  }

  /** The three cases of an escape in `StringBody`: a kept character, the end of the text, an invalid escape. */
  lemma EscapeKept(source: SourceText, s: LexState, value: string)
    requires Fits(source.text, s.w) && WindowPeek(source.text, s.w, 0) == '\\'
    requires var e := WindowPeek(source.text, Extended(source.text, s.w, 1), 0); e == '"' || e == 'n' || e == '\\'
    ensures
      var w1 := Extended(source.text, s.w, 1);
      var e := WindowPeek(source.text, w1, 0);
      StringBody(source, s, value)
      == StringBody(source, s.(w := Extended(source.text, w1, 1)), value + [if e == 'n' then '\n' else e])
  {
  }

  lemma EscapeAtEnd(source: SourceText, s: LexState, value: string)
    requires Fits(source.text, s.w) && WindowPeek(source.text, s.w, 0) == '\\'
    requires WindowPeek(source.text, Extended(source.text, s.w, 1), 0) == '\0'
    ensures
      var w1 := Extended(source.text, s.w, 1);
      StringBody(source, s, value)
      == StringScan(Report(s.(w := w1), UnterminatedStringLiteral, WindowLocation(source, w1), []), value)
  {
  }

  lemma EscapeInvalid(source: SourceText, s: LexState, value: string)
    requires Fits(source.text, s.w) && WindowPeek(source.text, s.w, 0) == '\\'
    requires var e := WindowPeek(source.text, Extended(source.text, s.w, 1), 0); e != '"' && e != 'n' && e != '\\' && e != '\0'
    ensures
      var w1 := Extended(source.text, s.w, 1);
      var e := WindowPeek(source.text, w1, 0);
      var w2 := Extended(source.text, w1, 1);
      StringBody(source, s, value)
      == StringBody(source, Report(s.(w := w2), InvalidEscapeSequence,
                                   TextLocation(source, TextSpan(w2.End() - 2, 2)), [TextArg(['\\', e])]), value)
  {
  }

  /** `ParseStringLiteral`: the opening quote, then the body. */
  function StringLiteral(source: SourceText, s: LexState): (r: TokenScan)
    requires Fits(source.text, s.w)
    ensures Grows(source, s, r.next) && r.kind == StringToken
  {
    var body := StringBody(source, s.(w := Extended(source.text, s.w, 1)), "");
    TokenScan(body.next, StringToken, Some(StringValue(body.value)))
  }

  /** The characters that start an operator or a punctuation token. */
  predicate IsOperatorStart(c: char) {
    || c == '*' || c == '/' || c == '%' || c == '(' || c == ')' || c == '[' || c == ']'
    || c == '{' || c == '}' || c == '.' || c == ',' || c == '&' || c == '|' || c == '^'
    || c == '=' || c == '<' || c == '>' || c == '!'
  }

  /** The operator and punctuation cases of `ReadToken`'s switch. */
  function Operator(source: SourceText, s: LexState, c: char): (r: TokenScan)
    requires Fits(source.text, s.w) && IsOperatorStart(c) && WindowPeek(source.text, s.w, 0) == c
    ensures Grows(source, s, r.next) && r.next.w.End() > s.w.End() && r.next.diags == s.diags
    ensures IsToken(r.kind) && r.kind != BadToken
  {
    match c
    case '*' => UpToTwo(source, s, StarToken, '=', StarEqualsToken)
    case '/' => UpToTwo(source, s, SlashToken, '=', SlashEqualsToken)
    case '%' => UpToTwo(source, s, PercentToken, '=', PercentEqualsToken)
    case '(' => SingleCharacter(source, s, LeftParenthesisToken)
    case ')' => SingleCharacter(source, s, RightParenthesisToken)
    case '[' => SingleCharacter(source, s, LeftBracketToken)
    case ']' => SingleCharacter(source, s, RightBracketToken)
    case '{' => SingleCharacter(source, s, LeftBraceToken)
    case '}' => SingleCharacter(source, s, RightBraceToken)
    case '.' => SingleCharacter(source, s, DotToken)
    case ',' => SingleCharacter(source, s, CommaToken)
    case '&' => UpToTwoOfTwo(source, s, AmpersandToken, '&', AmpersandAmpersandToken, '=', AmpersandEqualToken)
    case '|' => UpToTwoOfTwo(source, s, PipeToken, '|', PipePipeToken, '=', PipeEqualToken)
    case '^' => UpToTwo(source, s, HatToken, '=', HatEqualToken)
    case '=' => UpToTwo(source, s, EqualsToken, '=', EqualsEqualsToken)
    case '<' => UpToTwo(source, s, LessThanToken, '=', LessThanEqualToken)
    case '>' => UpToTwo(source, s, GreaterThanToken, '=', GreaterThanEqualToken)
    case '!' => UpToTwo(source, s, BangToken, '=', BangEqualsToken)
  }

  /**
   * `ReadToken`: the next character picks the token reader. The switch's
   * constant cases come first; its guarded cases then try a letter or `_`,
   * then a digit.
   */
  function ReadToken(source: SourceText, s: LexState): (r: Result<TokenScan>)
    requires Fits(source.text, s.w)
    ensures r.Ok? ==> Grows(source, s, r.value.next)
  {
    var t := source.text;
    var c := WindowPeek(t, s.w, 0);
    if c == '\0' then Ok(TokenScan(s, EndOfFileMarker, None))
    else if c == '"' then Ok(StringLiteral(source, s))
    else if IsOperatorStart(c) then Ok(Operator(source, s, c))
    else if c == '-' then PlusMinus(source, s, MinusToken, MinusEqualsToken)
    else if c == '+' then PlusMinus(source, s, PlusToken, PlusEqualsToken)
    else if c == '_' || IsLetter(c) then
      var w1 := ScannedWhile(t, s.w, IsIdentifierPart);
      Ok(TokenScan(s.(w := w1), IdentifierToken, Some(StringValue(WindowContent(t, w1)))))
    else if IsDigit(c) then NumericLiteral(source, s)
    else
      var w1 := Extended(t, s.w, 1);
      Ok(TokenScan(Report(s.(w := w1), UnexpectedCharacter, WindowLocation(source, w1), [TextArg(WindowContent(t, w1))]),
                   UnknownMarker, None))
  }

  /** A token together with the state after it. */
  datatype Lexed = Lexed(token: SyntaxToken, next: LexState)

  /**
   * `GetNextToken`: leading trivia, the token, its text committed, then
   * trailing trivia. The token starts where the leading trivia end.
   */
  function GetNextToken(source: SourceText, s: LexState): (r: Result<Lexed>)
    requires Fits(source.text, s.w)
    ensures r.Ok? ==> Fits(source.text, r.value.next.w) && r.value.next.w.length == 0
    ensures r.Ok? ==> r.value.next.w.start >= s.w.start
  {
    var t := source.text;
    match ReadTrivia(source, s)
    case Fatal(e) => Fatal(e)
    case Ok(s1) =>
      match ReadToken(source, s1)
      case Fatal(e) => Fatal(e)
      case Ok(scan) =>
        var text := WindowContent(t, scan.next.w);
        match ReadTrivia(source, scan.next.(w := Committed(scan.next.w)))
        case Fatal(e) => Fatal(e)
        case Ok(s3) => Ok(Lexed(SyntaxToken(scan.kind, s1.w.start, text, scan.value, s1.trivia, s3.trivia), s3))
  }
}
