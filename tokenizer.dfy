/**
 * The tokenizer: a text window, a trivia builder, a diagnostic builder and
 * a one-token lookahead buffer. Every method is proved to take the step
 * the reference definition in `Lexer` describes; `ok` is false exactly
 * where the source fails an assertion or throws.
 */
module Tokenizers {

  import opened Wrappers
  import opened Strings
  import opened Text
  import opened TextWindows
  import opened SyntaxFacts
  import opened Diagnostics
  import opened Syntax
  import opened Lexer

  class Tokenizer {
    const source: SourceText
    const window: TextWindow
    const diagnostics: DiagnosticBuilder
    var trivia: seq<SyntaxTrivia>
    var next: Option<SyntaxToken>

    ghost predicate Valid()
      reads this, window
    {
      window.source == source && window.Valid()
    }

    /** The state the reference definition speaks about. */
    function State(): LexState
      reads this, window, diagnostics
    {
      LexState(window.State(), trivia, diagnostics.items)
    }

    constructor (source: SourceText)
      ensures Valid() && this.source == source && next == None
      ensures State() == Start()
      ensures fresh(window) && fresh(diagnostics)
    {
      this.source := source;
      window := new TextWindow(source);
      diagnostics := new DiagnosticBuilder();
      trivia := [];
      next := None;
    }

    // -------------------------------------------------------------------
    // Trivia
    // -------------------------------------------------------------------

    method EmitTrivia(kind: SyntaxKind)
      requires Valid()
      modifies this, window
      ensures Valid() && next == old(next)
      ensures State() == Emit(source, old(State()), kind)
    {
      trivia := trivia + [SyntaxTrivia(kind, window.start, window.Content())];
      window.Advance();
    }

    method ReadSingleLineComment()
      requires Valid()
      requires window.Peek(0) == '/' && window.Peek(1) == '/'
      modifies this, window
      ensures Valid() && next == old(next)
      ensures State() == SingleLineComment(source, old(State()))
    {
      var asserted := window.AssertText("//");
      var _ := window.NextUntil(IsLineBreak);
      if !window.EndOfFile() {
        var _ := window.Next();
        if window.Last() == '\r' && window.Peek(0) == '\n' {
          var _ := window.Next();
        }
      }
      EmitTrivia(SingleLineCommentTrivia);
    }

    /**
     * `ReadMultiLineComment`: `/` `*`, up to the first `*`, and the comment
     * is emitted only at the end of the text or when a `/` follows that
     * `*`; `ok` is false where `Assert('*')` fails.
     */
    method ReadMultiLineComment() returns (ok: bool)
      requires Valid()
      requires window.Peek(0) == '/' && window.Peek(1) == '*'
      modifies this, window, diagnostics
      ensures Valid() && next == old(next)
      ensures ok == MultiLineCommentAsWritten(source, old(State())).Continue?
      ensures ok ==> State() == MultiLineCommentAsWritten(source, old(State())).next
    {
      var asserted := window.AssertText("/*");
      var _ := window.NextUntil(IsStar);
      if window.EndOfFile() {
        diagnostics.Add(UnexpectedEndOfFile, window.Right(), [TextArg("*/")]);
        EmitTrivia(BlockCommentTrivia);
        return true;
      }
      var star := window.AssertChar('*');
      if !star {
        return false;
      }
      if window.Peek(0) == '/' {
        var _ := window.Next();
        EmitTrivia(BlockCommentTrivia);
      }
      return true;
    }

    method ReadWhitespace()
      requires Valid()
      modifies this, window
      ensures Valid() && next == old(next)
      ensures State() == Whitespace(source, old(State()))
    {
      var _ := window.NextWhile(IsWhiteSpace);
      EmitTrivia(WhitespaceTrivia);
    }

    method ReadNewline()
      requires Valid()
      modifies this, window
      ensures Valid() && next == old(next)
      ensures State() == Newline(source, old(State()))
    {
      var _ := window.NextWhile(IsLineBreak);
      EmitTrivia(NewlineTrivia);
    }

    /** `ReadOneTrivia`: `more` says whether a trivia reader ran. */
    method ReadOneTrivia() returns (more: bool, ok: bool)
      requires Valid()
      modifies this, window, diagnostics
      ensures Valid() && next == old(next)
      ensures ok == !Lexer.ReadOneTrivia(source, old(State())).Crash?
      ensures more == Lexer.ReadOneTrivia(source, old(State())).Continue?
      ensures more ==> State() == Lexer.ReadOneTrivia(source, old(State())).next
      ensures ok && !more ==> State() == old(State())
    {
      var c := window.Peek(0);
      if c == '\0' {
        return false, true;
      } else if c == '/' {
        var la := window.Peek(1);
        if la == '/' {
          ReadSingleLineComment();
          return true, true;
        } else if la == '*' {
          ok := ReadMultiLineComment();
          return ok, ok;
        }
        return false, true;
      } else if c == '\r' || c == '\n' {
        ReadNewline();
        return true, true;
      } else if IsWhiteSpace(c) {
        ReadWhitespace();
        return true, true;
      }
      return false, true;
    }

    /** `ReadTrivia`: clears the builder, reads trivia while there are any, then resets the window. */
    method ReadTrivia() returns (ok: bool)
      requires Valid()
      modifies this, window, diagnostics
      ensures Valid() && next == old(next)
      ensures ok == Lexer.ReadTrivia(source, old(State())).Ok?
      ensures ok ==> State() == Lexer.ReadTrivia(source, old(State())).value
    {
      trivia := [];
      while true
        invariant Valid() && next == old(next)
        invariant ReadTriviaLoop(source, State()) == Lexer.ReadTrivia(source, old(State()))
        decreases |source.text| - window.End()
      {
        var more, fine := ReadOneTrivia();
        if !fine {
          return false;
        }
        if !more {
          break;
        }
      }
      window.Reset();
      return true;
    }

    // -------------------------------------------------------------------
    // Tokens
    // -------------------------------------------------------------------

    method SingleCharacterToken(kind: SyntaxKind) returns (k: SyntaxKind, value: Option<TokenValue>)
      requires Valid()
      modifies window
      ensures Valid()
      ensures TokenScan(State(), k, value) == SingleCharacter(source, old(State()), kind)
    {
      window.Extend(1);
      return kind, None;
    }

    /** `UpToTwoOperator` with one candidate second character. */
    method UpToTwoOperator(one: SyntaxKind, second: char, two: SyntaxKind) returns (k: SyntaxKind, value: Option<TokenValue>)
      requires Valid()
      modifies window
      ensures Valid()
      ensures TokenScan(State(), k, value) == UpToTwo(source, old(State()), one, second, two)
    {
      window.Extend(1);
      k, value := SecondOf(one, second, two);
    }

    /** The `TryExtend` of `UpToTwoOperator`. */
    method SecondOf(one: SyntaxKind, second: char, two: SyntaxKind) returns (k: SyntaxKind, value: Option<TokenValue>)
      requires Valid()
      modifies window
      ensures Valid()
      ensures
        var t, s := source.text, old(State());
        TokenScan(State(), k, value)
        == if WindowPeek(t, s.w, 0) == second then TokenScan(s.(w := Extended(t, s.w, 1)), two, None)
           else TokenScan(s, one, None)
    {
      var matched := window.TryExtend(second);
      k, value := if matched then two else one, None;
    }

    /** `UpToTwoOperator` with two candidate second characters. */
    method UpToTwoOperatorOfTwo(one: SyntaxKind, second1: char, two1: SyntaxKind, second2: char, two2: SyntaxKind)
      returns (k: SyntaxKind, value: Option<TokenValue>)
      requires Valid()
      modifies window
      ensures Valid()
      ensures TokenScan(State(), k, value) == UpToTwoOfTwo(source, old(State()), one, second1, two1, second2, two2)
    {
      window.Extend(1);
      k, value := SecondOfTwo(one, second1, two1, second2, two2);
    }

    /** The two `TryExtend`s of `UpToTwoOperatorOfTwo`, tried in order. */
    method SecondOfTwo(one: SyntaxKind, second1: char, two1: SyntaxKind, second2: char, two2: SyntaxKind)
      returns (k: SyntaxKind, value: Option<TokenValue>)
      requires Valid()
      modifies window
      ensures Valid()
      ensures
        var t, s := source.text, old(State());
        TokenScan(State(), k, value)
        == if WindowPeek(t, s.w, 0) == second1 then TokenScan(s.(w := Extended(t, s.w, 1)), two1, None)
           else if WindowPeek(t, s.w, 0) == second2 then TokenScan(s.(w := Extended(t, s.w, 1)), two2, None)
           else TokenScan(s, one, None)
    {
      var matched := window.TryExtend(second1);
      k, value := two1, None;
      if !matched {
        matched := window.TryExtend(second2);
        k := if matched then two2 else one;
      }
    }

    /** `ParseNumericLiteral`; `ok` is false where `long.Parse` would throw a format error. */
    method ParseNumericLiteral() returns (k: SyntaxKind, value: Option<TokenValue>, ok: bool)
      requires Valid()
      modifies window, diagnostics
      ensures Valid()
      ensures ok == NumericLiteral(source, old(State())).Ok?
      ensures ok ==> TokenScan(State(), k, value) == NumericLiteral(source, old(State())).value
    {
      var c := window.Peek(0);
      if c == '-' || c == '+' {
        window.Extend(1);
      }
      var _ := window.NextWhile(IsNumberPart);
      var text := window.Content();
      match ParseInt64(ReplaceChar(text, '_', "")) {
        case Parsed(v) =>
          return NumberToken, Some(IntValue(v)), true;
        case Overflow =>
          diagnostics.Add(IntegerLiteralTooLarge, window.Location(), [TextArg(text)]);
          return NumberToken, Some(IntValue(Int64Max)), true;
        case BadFormat =>
          return NumberToken, None, false;
      }
    }

    /** `ParsePlusMinus`: `op=`, a signed number, or `op`. */
    method ParsePlusMinus(op: SyntaxKind, compound: SyntaxKind) returns (k: SyntaxKind, value: Option<TokenValue>, ok: bool)
      requires Valid()
      modifies window, diagnostics
      ensures Valid()
      ensures ok == PlusMinus(source, old(State()), op, compound).Ok?
      ensures ok ==> TokenScan(State(), k, value) == PlusMinus(source, old(State()), op, compound).value
    {
      window.Extend(1);
      var matched := window.TryExtend('=');
      if matched {
        return compound, None, true;
      }
      if IsDigit(window.Peek(0)) {
        k, value, ok := ParseNumericLiteral();
        return;
      }
      return op, None, true;
    }

    /**
     * The escape after a `\\` inside a string literal, `before` being the
     * state the `\\` was read from: `done` is true where a '\0' ends the
     * literal; otherwise reading goes on as the reference definition does.
     */
    method ReadEscape(text: string, ghost before: LexState) returns (done: bool, text': string)
      requires Valid() && Fits(source.text, before.w)
      requires WindowPeek(source.text, before.w, 0) == '\\'
      requires State() == before.(w := Extended(source.text, before.w, 1))
      modifies window, diagnostics
      ensures Valid() && trivia == old(trivia)
      ensures done ==> StringScan(State(), text') == StringBody(source, before, text)
      ensures !done ==> StringBody(source, State(), text') == StringBody(source, before, text)
      ensures !done ==> window.End() > before.w.End()
    {
      var e := window.Peek(0);
      if e == '"' || e == 'n' || e == '\\' {
        EscapeKept(source, before, text);
        window.Extend(1);
        return false, text + [if e == 'n' then '\n' else e];
      } else if e == '\0' {
        EscapeAtEnd(source, before, text);
        diagnostics.Add(UnterminatedStringLiteral, window.Location(), []);
        return true, text;
      } else {
        EscapeInvalid(source, before, text);
        window.Extend(1);
        diagnostics.Add(InvalidEscapeSequence, TextLocation(source, TextSpan(window.End() - 2, 2)), [TextArg(['\\', e])]);
        return false, text;
      }
    }

    /** `ParseStringLiteral`: the opening quote, then the `ReadStringLiteral` loop. */
    method ParseStringLiteral() returns (k: SyntaxKind, value: Option<TokenValue>)
      requires Valid()
      modifies window, diagnostics
      ensures Valid()
      ensures TokenScan(State(), k, value) == StringLiteral(source, old(State()))
    {
      var _ := window.AssertChar('"');
      ghost var target := StringBody(source, State(), "");
      var text := "";
      while true
        invariant Valid() && trivia == old(trivia)
        invariant StringBody(source, State(), text) == target
        decreases |source.text| - window.End()
      {
        ghost var before := State();
        var c := window.Next();
        if c == '"' {
          return StringToken, Some(StringValue(text));
        } else if c == '\\' {
          var done;
          done, text := ReadEscape(text, before);
          if done {
            return StringToken, Some(StringValue(text));
          }
        } else if c == '\r' || c == '\n' {
          var backed := window.Back(1);
          diagnostics.Add(UnterminatedStringLiteral, window.Location(), []);
          return StringToken, Some(StringValue(text));
        } else if c == '\0' {
          diagnostics.Add(UnterminatedStringLiteral, window.Location(), []);
          return StringToken, Some(StringValue(text));
        } else {
          text := text + [c];
        }
      }
    }

    /** The operator and punctuation cases of `ReadToken`'s switch. */
    method OperatorToken(c: char) returns (k: SyntaxKind, value: Option<TokenValue>)
      requires Valid() && IsOperatorStart(c) && window.Peek(0) == c
      modifies window
      ensures Valid()
      ensures TokenScan(State(), k, value) == Operator(source, old(State()), c)
    {
      match c {
        case '*' => k, value := UpToTwoOperator(StarToken, '=', StarEqualsToken);
        case '/' => k, value := UpToTwoOperator(SlashToken, '=', SlashEqualsToken);
        case '%' => k, value := UpToTwoOperator(PercentToken, '=', PercentEqualsToken);
        case '(' => k, value := SingleCharacterToken(LeftParenthesisToken);
        case ')' => k, value := SingleCharacterToken(RightParenthesisToken);
        case '[' => k, value := SingleCharacterToken(LeftBracketToken);
        case ']' => k, value := SingleCharacterToken(RightBracketToken);
        case '{' => k, value := SingleCharacterToken(LeftBraceToken);
        case '}' => k, value := SingleCharacterToken(RightBraceToken);
        case '.' => k, value := SingleCharacterToken(DotToken);
        case ',' => k, value := SingleCharacterToken(CommaToken);
        case '&' => k, value := UpToTwoOperatorOfTwo(AmpersandToken, '&', AmpersandAmpersandToken, '=', AmpersandEqualToken);
        case '|' => k, value := UpToTwoOperatorOfTwo(PipeToken, '|', PipePipeToken, '=', PipeEqualToken);
        case '^' => k, value := UpToTwoOperator(HatToken, '=', HatEqualToken);
        case '=' => k, value := UpToTwoOperator(EqualsToken, '=', EqualsEqualsToken);
        case '<' => k, value := UpToTwoOperator(LessThanToken, '=', LessThanEqualToken);
        case '>' => k, value := UpToTwoOperator(GreaterThanToken, '=', GreaterThanEqualToken);
        case '!' => k, value := UpToTwoOperator(BangToken, '=', BangEqualsToken);
      }
    }

    /** `ReadToken`: the big switch on the next character. */
    method ReadToken() returns (k: SyntaxKind, value: Option<TokenValue>, ok: bool)
      requires Valid()
      modifies window, diagnostics
      ensures Valid()
      ensures ok == Lexer.ReadToken(source, old(State())).Ok?
      ensures ok ==> TokenScan(State(), k, value) == Lexer.ReadToken(source, old(State())).value
    {
      ok := true;
      var c := window.Peek(0);
      if c == '\0' {
        k, value := EndOfFileMarker, None;
      } else if c == '"' {
        k, value := ParseStringLiteral();
      } else if IsOperatorStart(c) {
        k, value := OperatorToken(c);
      } else if c == '-' {
        k, value, ok := ParsePlusMinus(MinusToken, MinusEqualsToken);
      } else if c == '+' {
        k, value, ok := ParsePlusMinus(PlusToken, PlusEqualsToken);
      } else if c == '_' || IsLetter(c) {
        var _ := window.NextWhile(IsIdentifierPart);
        k, value := IdentifierToken, Some(StringValue(window.Content()));
      } else if IsDigit(c) {
        k, value, ok := ParseNumericLiteral();
      } else {
        window.Extend(1);
        diagnostics.Add(UnexpectedCharacter, window.Location(), [TextArg(window.Content())]);
        k, value := UnknownMarker, None;
      }
    }

    /**
     * `GetNextToken`: leading trivia, the token, its text committed, then
     * trailing trivia; `ok` is false where the source throws.
     */
    method GetNextToken() returns (token: SyntaxToken, ok: bool)
      requires Valid()
      modifies this, window, diagnostics
      ensures Valid() && next == old(next)
      ensures ok == Lexer.GetNextToken(source, old(State())).Ok?
      ensures ok ==> Lexed(token, State()) == Lexer.GetNextToken(source, old(State())).value
    {
      token := SyntaxToken(EndOfFileMarker, 0, "", None, [], []);
      ok := ReadTrivia();
      if !ok {
        return;
      }
      var leading := trivia;
      var tokenStart := window.start;
      var kind, value;
      kind, value, ok := ReadToken();
      if !ok {
        return;
      }
      var text := window.Content();
      window.Advance();
      ok := ReadTrivia();
      if !ok {
        return;
      }
      token := SyntaxToken(kind, tokenStart, text, value, leading, trivia);
    }

    /** `Peek`: the buffered token, or the next one read into the buffer. */
    method Peek() returns (token: SyntaxToken, ok: bool)
      requires Valid()
      modifies this, window, diagnostics
      ensures Valid()
      ensures old(next).Some? ==> ok && token == old(next).value && next == old(next) && State() == old(State())
      ensures old(next).None? ==> ok == Lexer.GetNextToken(source, old(State())).Ok?
      ensures old(next).None? && ok ==>
        Lexed(token, State()) == Lexer.GetNextToken(source, old(State())).value && next == Some(token)
    {
      if next.Some? {
        return next.value, true;
      }
      token, ok := GetNextToken();
      if ok {
        next := Some(token);
      }
    }

    /** `Next`: the token `Peek` gives, with the buffer cleared. */
    method Next() returns (token: SyntaxToken, ok: bool)
      requires Valid()
      modifies this, window, diagnostics
      ensures Valid() && next == None
      ensures old(next).Some? ==> ok && token == old(next).value && State() == old(State())
      ensures old(next).None? ==> ok == Lexer.GetNextToken(source, old(State())).Ok?
      ensures old(next).None? && ok ==> Lexed(token, State()) == Lexer.GetNextToken(source, old(State())).value
    {
      token, ok := Peek();
      next := None;
    }
  }
}
