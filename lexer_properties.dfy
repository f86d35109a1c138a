/**
 * What the tokenizer promises, proved about its reference definition:
 * the trivia and the token text tile the text they were read from, every
 * token but the end-of-file marker consumes text, the kinds it produces,
 * when it can fail, and the values of number and string literals.
 */
module LexerProperties {

  import opened Wrappers
  import opened Strings
  import opened Text
  import opened TextWindows
  import opened SyntaxFacts
  import opened Diagnostics
  import opened Syntax
  import opened Lexer
  import opened Writers

  // ---------------------------------------------------------------------
  // The text is tiled by trivia and tokens
  // ---------------------------------------------------------------------

  /** The texts of a trivia list, one after the other. */
  function TriviaTexts(ts: seq<SyntaxTrivia>): string {
    if ts == [] then [] else ts[0].text + TriviaTexts(ts[1..])
  }

  /** Back-to-back trivia from `p` to `q` spell out exactly the text between `p` and `q`. */
  lemma {:induction false} ContiguousCovers(t: string, p: nat, ts: seq<SyntaxTrivia>, q: nat)
    requires Contiguous(t, p, ts, q)
    ensures p <= q
    ensures q <= |t| ==> t[p..q] == TriviaTexts(ts)
    decreases |ts|
  {
    if ts != [] {
      var m := p + |ts[0].text|;
      ContiguousCovers(t, m, ts[1..], q);
      if q <= |t| {
        assert t[p..q] == t[p..m] + t[m..q];
      }
    }
  }

  lemma {:induction false} BlockCommentRestContiguous(source: SourceText, p: nat, s: LexState)
    requires Fits(source.text, s.w) && Contiguous(source.text, p, s.trivia, s.w.start)
    ensures BlockCommentRest(source, s).Continue? ==>
      Contiguous(source.text, p, BlockCommentRest(source, s).next.trivia, BlockCommentRest(source, s).next.w.start)
    decreases |source.text| - s.w.End()
  {
    var t := source.text;
    var w1 := ScannedUntil(t, s.w, IsStar);
    if AtEnd(t, w1) {
      EmitIsContiguous(source, p, Report(s.(w := w1), UnexpectedEndOfFile, WindowRight(source, w1), [TextArg("*/")]),
                       BlockCommentTrivia);
    } else if WindowPeek(t, w1, 0) == '*' {
      var w2 := Extended(t, w1, 1);
      if WindowPeek(t, w2, 0) == '/' {
        EmitIsContiguous(source, p, s.(w := Extended(t, w2, 1)), BlockCommentTrivia);
      } else {
        BlockCommentRestContiguous(source, p, s.(w := w2));
      }
    }
  }

  /** The block comment reader keeps the trivia back to back, whether it emits a comment or not. */
  lemma MultiLineCommentAsWrittenContiguous(source: SourceText, p: nat, s: LexState)
    requires Fits(source.text, s.w) && Contiguous(source.text, p, s.trivia, s.w.start)
    requires WindowPeek(source.text, s.w, 0) == '/' && WindowPeek(source.text, s.w, 1) == '*'
    ensures MultiLineCommentAsWritten(source, s).Continue? ==>
      Contiguous(source.text, p, MultiLineCommentAsWritten(source, s).next.trivia,
                 MultiLineCommentAsWritten(source, s).next.w.start)
  {
    var t := source.text;
    var w1 := ScannedUntil(t, Extended(t, s.w, 2), IsStar);
    if AtEnd(t, w1) {
      EmitIsContiguous(source, p, Report(s.(w := w1), UnexpectedEndOfFile, WindowRight(source, w1), [TextArg("*/")]),
                       BlockCommentTrivia);
    } else if WindowPeek(t, w1, 0) == '*' {
      var w2 := Extended(t, w1, 1);
      if WindowPeek(t, w2, 0) == '/' {
        EmitIsContiguous(source, p, s.(w := Extended(t, w2, 1)), BlockCommentTrivia);
      }
    }
  }

  lemma SingleLineCommentContiguous(source: SourceText, p: nat, s: LexState)
    requires Fits(source.text, s.w) && Contiguous(source.text, p, s.trivia, s.w.start)
    requires WindowPeek(source.text, s.w, 0) == '/' && WindowPeek(source.text, s.w, 1) == '/'
    ensures Contiguous(source.text, p, SingleLineComment(source, s).trivia, SingleLineComment(source, s).w.start)
  {
    var t := source.text;
    var w1 := ScannedUntil(t, Extended(t, s.w, 2), IsLineBreak);
    var w2 :=
      if AtEnd(t, w1) then w1
      else
        var w3 := Extended(t, w1, 1);
        if WindowLast(t, w3) == '\r' && WindowPeek(t, w3, 0) == '\n' then Extended(t, w3, 1) else w3;
    EmitIsContiguous(source, p, s.(w := w2), SingleLineCommentTrivia);
  }

  /** One trivia reader keeps the trivia back to back, ending where the window now starts. */
  lemma ReadOneTriviaContiguous(source: SourceText, p: nat, s: LexState)
    requires Fits(source.text, s.w) && Contiguous(source.text, p, s.trivia, s.w.start)
    ensures ReadOneTrivia(source, s).Continue? ==>
      Contiguous(source.text, p, ReadOneTrivia(source, s).next.trivia, ReadOneTrivia(source, s).next.w.start)
  {
    var t := source.text;
    var c := WindowPeek(t, s.w, 0);
    if c == '/' && WindowPeek(t, s.w, 1) == '/' {
      SingleLineCommentContiguous(source, p, s);
    } else if c == '/' && WindowPeek(t, s.w, 1) == '*' {
      MultiLineCommentAsWrittenContiguous(source, p, s);
    } else if c == '\r' || c == '\n' {
      EmitIsContiguous(source, p, s.(w := ScannedWhile(t, s.w, IsLineBreak)), NewlineTrivia);
    } else if c != '\0' && IsWhiteSpace(c) {
      EmitIsContiguous(source, p, s.(w := ScannedWhile(t, s.w, IsWhiteSpace)), WhitespaceTrivia);
    }
  }

  lemma {:induction false} ReadTriviaLoopContiguous(source: SourceText, p: nat, s: LexState)
    requires Fits(source.text, s.w) && Contiguous(source.text, p, s.trivia, s.w.start)
    ensures ReadTriviaLoop(source, s).Ok? ==>
      Contiguous(source.text, p, ReadTriviaLoop(source, s).value.trivia, ReadTriviaLoop(source, s).value.w.start)
    decreases |source.text| - s.w.End()
  {
    ReadOneTriviaContiguous(source, p, s);
    match ReadOneTrivia(source, s)
    case Stop =>
    case Crash =>
    case Continue(next) => ReadTriviaLoopContiguous(source, p, next);
  }

  /** The trivia `ReadTrivia` collects lie back to back from where it started to where the window now starts. */
  lemma ReadTriviaContiguous(source: SourceText, s: LexState)
    requires Fits(source.text, s.w) && ReadTrivia(source, s).Ok?
    ensures Contiguous(source.text, s.w.start, ReadTrivia(source, s).value.trivia, ReadTrivia(source, s).value.w.start)
  {
    ReadTriviaLoopContiguous(source, s.w.start, s.(trivia := []));
  }

  /**
   * `tok` tiles the text from `p` to `q`: its leading trivia back to back
   * from `p`, then its own text, then its trailing trivia up to `q`.
   */
  predicate Tiles(t: string, p: nat, tok: SyntaxToken, q: nat) {
    && 0 <= tok.position && tok.position + |tok.text| <= |t|
    && Contiguous(t, p, tok.leading, tok.position)
    && t[tok.position..tok.position + |tok.text|] == tok.text
    && Contiguous(t, tok.position + |tok.text|, tok.trailing, q)
  }

  /**
   * A token read by `GetNextToken` tiles the text from where reading began
   * to where the next token's reading begins.
   */
  lemma GetNextTokenTiles(source: SourceText, s: LexState)
    requires Fits(source.text, s.w) && GetNextToken(source, s).Ok?
    ensures Tiles(source.text, s.w.start, GetNextToken(source, s).value.token, GetNextToken(source, s).value.next.w.start)
  {
    var s1 := ReadTrivia(source, s).value;
    var scan := ReadToken(source, s1).value;
    var s2 := scan.next.(w := Committed(scan.next.w));
    var s3 := ReadTrivia(source, s2).value;
    TokenTiles(source, s, s1, scan, s3);
  }

  lemma TokenTiles(source: SourceText, s: LexState, s1: LexState, scan: TokenScan, s3: LexState)
    requires Fits(source.text, s.w) && ReadTrivia(source, s) == Ok(s1)
    requires Grows(source, s1, scan.next)
    requires ReadTrivia(source, scan.next.(w := Committed(scan.next.w))) == Ok(s3)
    ensures var text := WindowContent(source.text, scan.next.w);
      Tiles(source.text, s.w.start, SyntaxToken(scan.kind, s1.w.start, text, scan.value, s1.trivia, s3.trivia), s3.w.start)
  {
    ReadTriviaContiguous(source, s);
    ReadTriviaContiguous(source, scan.next.(w := Committed(scan.next.w)));
  }

  /** As text: the characters a tiling token covers are its full text. */
  lemma TilesFullText(t: string, p: nat, tok: SyntaxToken, q: nat)
    requires Tiles(t, p, tok, q) && q <= |t|
    ensures p <= q
    ensures t[p..q] == TriviaTexts(tok.leading) + tok.text + TriviaTexts(tok.trailing)
  {
    var a, b := tok.position, tok.position + |tok.text|;
    ContiguousCovers(t, p, tok.leading, a);
    ContiguousCovers(t, b, tok.trailing, q);
    assert t[p..q] == t[p..a] + t[a..b] + t[b..q];
  }

  // ---------------------------------------------------------------------
  // When reading fails
  // ---------------------------------------------------------------------

  /** The only failure inside a block comment is a '\0' where the `*` was expected. */
  lemma {:induction false} BlockCommentRestNoCrash(source: SourceText, s: LexState)
    requires Fits(source.text, s.w) && '\0' !in source.text
    ensures !BlockCommentRest(source, s).Crash?
    decreases |source.text| - s.w.End()
  {
    var t := source.text;
    var w1 := ScannedUntil(t, s.w, IsStar);
    if !AtEnd(t, w1) {
      assert t[w1.End()] in t;
      var w2 := Extended(t, w1, 1);
      if WindowPeek(t, w2, 0) != '/' {
        BlockCommentRestNoCrash(source, s.(w := w2));
      }
    }
  }

  /** The same for the block comment reader the tokenizer runs. */
  lemma MultiLineCommentAsWrittenNoCrash(source: SourceText, s: LexState)
    requires Fits(source.text, s.w) && '\0' !in source.text
    requires WindowPeek(source.text, s.w, 0) == '/' && WindowPeek(source.text, s.w, 1) == '*'
    ensures !MultiLineCommentAsWritten(source, s).Crash?
  {
    var t := source.text;
    var w1 := ScannedUntil(t, Extended(t, s.w, 2), IsStar);
    if !AtEnd(t, w1) {
      assert t[w1.End()] in t;
    }
  }

  lemma {:induction false} ReadTriviaLoopSucceeds(source: SourceText, s: LexState)
    requires Fits(source.text, s.w) && '\0' !in source.text
    ensures ReadTriviaLoop(source, s).Ok?
    decreases |source.text| - s.w.End()
  {
    var t := source.text;
    if WindowPeek(t, s.w, 0) == '/' && WindowPeek(t, s.w, 1) == '*' {
      MultiLineCommentAsWrittenNoCrash(source, s);
    }
    match ReadOneTrivia(source, s)
    case Stop =>
    case Crash =>
    case Continue(next) => ReadTriviaLoopSucceeds(source, next);
  }

  /** Without a '\0' in the text, neither trivia nor tokens can fail: `GetNextToken` always returns a token. */
  lemma GetNextTokenSucceeds(source: SourceText, s: LexState)
    requires Fits(source.text, s.w) && '\0' !in source.text
    ensures GetNextToken(source, s).Ok?
  {
    ReadTriviaLoopSucceeds(source, s.(trivia := []));
    var s1 := ReadTrivia(source, s).value;
    ReadTokenSucceeds(source, s1);
    var scan := ReadToken(source, s1).value;
    ReadTriviaLoopSucceeds(source, scan.next.(w := Committed(scan.next.w)).(trivia := []));
  }

  /**
   * `GetNextToken` reads on: its token is the end-of-file marker exactly
   * when its text is empty, and any other token moves the next reading on.
   */
  lemma GetNextTokenProgress(source: SourceText, s: LexState)
    requires Fits(source.text, s.w) && GetNextToken(source, s).Ok?
    ensures var r := GetNextToken(source, s).value;
      && (r.token.kind == EndOfFileMarker <==> r.token.text == "")
      && (r.token.kind != EndOfFileMarker ==> r.next.w.start > s.w.start)
      && IsLexedKind(r.token.kind)
  {
    var s1 := ReadTrivia(source, s).value;
    var scan := ReadToken(source, s1).value;
    ReadTokenProgress(source, s1);
    ReadTokenKind(source, s1);
    var s3 := ReadTrivia(source, scan.next.(w := Committed(scan.next.w))).value;
    TokenProgress(source, s, s1, scan, s3);
  }

  lemma TokenProgress(source: SourceText, s: LexState, s1: LexState, scan: TokenScan, s3: LexState)
    requires Fits(source.text, s.w) && ReadTrivia(source, s) == Ok(s1)
    requires Grows(source, s1, scan.next)
    requires scan.kind == EndOfFileMarker <==> scan.next.w.End() == s1.w.End()
    requires ReadTrivia(source, scan.next.(w := Committed(scan.next.w))) == Ok(s3)
    ensures var text := WindowContent(source.text, scan.next.w);
      && (scan.kind == EndOfFileMarker <==> text == "")
      && (scan.kind != EndOfFileMarker ==> s3.w.start > s.w.start)
  {
  }

  // ---------------------------------------------------------------------
  // What `ReadToken` reads
  // ---------------------------------------------------------------------

  /**
   * Only the end-of-file marker reads nothing: it is what a '\0' or the end
   * of the text gives, and it leaves the state as it is. Every other token
   * takes at least one character.
   */
  lemma ReadTokenProgress(source: SourceText, s: LexState)
    requires Fits(source.text, s.w) && ReadToken(source, s).Ok?
    ensures ReadToken(source, s).value.kind == EndOfFileMarker <==> WindowPeek(source.text, s.w, 0) == '\0'
    ensures ReadToken(source, s).value.kind == EndOfFileMarker ==> ReadToken(source, s).value.next == s
    ensures ReadToken(source, s).value.kind != EndOfFileMarker ==> ReadToken(source, s).value.next.w.End() > s.w.End()
  {
    var t := source.text;
    var c := WindowPeek(t, s.w, 0);
    if c != '\0' {
      assert s.w.End() < |t| && t[s.w.End()] == c;
      if c == '_' || IsLetter(c) {
        assert ScanWhile(t, s.w.End(), IsIdentifierPart) > s.w.End();
      } else if IsDigit(c) {
        assert ScanWhile(t, s.w.End(), IsNumberPart) > s.w.End();
      }
    }
  }

  /** The kinds the tokenizer produces: the two markers and the token kinds other than `BadToken`. */
  predicate IsLexedKind(k: SyntaxKind) {
    IsMarker(k) || (IsToken(k) && k != BadToken)
  }

  lemma ReadTokenKind(source: SourceText, s: LexState)
    requires Fits(source.text, s.w) && ReadToken(source, s).Ok?
    ensures IsLexedKind(ReadToken(source, s).value.kind)
  {
  }

  /** A token's kind never is a keyword, the semicolon, trivia or a node. */
  lemma LexedKindIsNoKeyword(k: SyntaxKind)
    requires IsLexedKind(k)
    ensures !IsKeyword(k) && k != SemicolonToken && k != FunKeyword && k != EndKeyword
    ensures !IsTrivia(k) && !IsNode(k)
  {
  }

  // ---------------------------------------------------------------------
  // Number literals
  // ---------------------------------------------------------------------

  /** The text `ParseNumericLiteral` collects: an optional sign, a digit, then digits and `_`. */
  predicate IsNumberText(s: string) {
    var d := if |s| > 0 && (s[0] == '-' || s[0] == '+') then s[1..] else s;
    |d| > 0 && IsDigit(d[0]) && forall i :: 0 <= i < |d| ==> IsNumberPart(d[i])
  }

  /** Dropping the `_` separators from digits and `_` leaves only digits. */
  lemma {:induction false} DropSeparators(d: string)
    requires forall i :: 0 <= i < |d| ==> IsNumberPart(d[i])
    ensures AllDigits(ReplaceChar(d, '_', ""))
    ensures |d| > 0 && IsDigit(d[0]) ==> ReplaceChar(d, '_', "") == [d[0]] + ReplaceChar(d[1..], '_', "")
  {
    if d != [] {
      DropSeparators(d[1..]);
    }
  }

  /** `long.Parse` never rejects the text of a number literal: it reads a value or overflows. */
  lemma NumberTextParses(s: string)
    requires IsNumberText(s)
    ensures !ParseInt64(ReplaceChar(s, '_', "")).BadFormat?
  {
    var r := ReplaceChar(s, '_', "");
    if s[0] == '-' || s[0] == '+' {
      DropSeparators(s[1..]);
      assert r == [s[0]] + ReplaceChar(s[1..], '_', "");
      assert r[1..] == ReplaceChar(s[1..], '_', "");
    } else {
      DropSeparators(s);
    }
  }

  /**
   * `ParseNumericLiteral` never throws where the tokenizer calls it: on a
   * digit, with nothing or only the sign already in the window.
   */
  lemma NumericLiteralSucceeds(source: SourceText, s: LexState)
    requires Fits(source.text, s.w) && IsDigit(WindowPeek(source.text, s.w, 0))
    requires s.w.length == 0 || WindowContent(source.text, s.w) in {"-", "+"}
    ensures NumericLiteral(source, s).Ok?
  {
    var t := source.text;
    var w2 := ScannedWhile(t, s.w, IsNumberPart);
    ScannedWhileContent(t, s.w, IsNumberPart);
    var rest := t[s.w.End()..w2.End()];
    assert s.w.End() < |t| && t[s.w.End()] == WindowPeek(t, s.w, 0);
    assert |rest| > 0 && rest[0] == t[s.w.End()];
    SignThenDigits(WindowContent(t, s.w), rest);
    NumberTextParses(WindowContent(t, w2));
  }

  /** An optional sign followed by a digit and further digits or `_` is number text. */
  lemma SignThenDigits(sign: string, rest: string)
    requires sign == "" || sign in {"-", "+"}
    requires |rest| > 0 && IsDigit(rest[0])
    requires forall c :: c in rest ==> IsNumberPart(c)
    ensures IsNumberText(sign + rest)
  {
    assert forall i :: 0 <= i < |rest| ==> rest[i] in rest;
    if sign == "" {
      assert sign + rest == rest;
    } else {
      assert (sign + rest)[1..] == rest;
    }
  }

  lemma PlusMinusSucceeds(source: SourceText, s: LexState, op: SyntaxKind, compound: SyntaxKind)
    requires Fits(source.text, s.w) && s.w.length == 0
    requires WindowPeek(source.text, s.w, 0) in {'-', '+'}
    ensures PlusMinus(source, s, op, compound).Ok?
  {
    var t := source.text;
    var w1 := Extended(t, s.w, 1);
    if WindowPeek(t, w1, 0) != '=' && IsDigit(WindowPeek(t, w1, 0)) {
      assert WindowContent(t, w1) == [WindowPeek(t, s.w, 0)];
      NumericLiteralSucceeds(source, s.(w := w1));
    }
  }

  /** Reading a token from a committed window never fails. */
  lemma ReadTokenSucceeds(source: SourceText, s: LexState)
    requires Fits(source.text, s.w) && s.w.length == 0
    ensures ReadToken(source, s).Ok?
  {
    var c := WindowPeek(source.text, s.w, 0);
    if c == '-' {
      PlusMinusSucceeds(source, s, MinusToken, MinusEqualsToken);
    } else if c == '+' {
      PlusMinusSucceeds(source, s, PlusToken, PlusEqualsToken);
    } else if IsDigit(c) {
      NumericLiteralSucceeds(source, s);
    }
  }

  // ---------------------------------------------------------------------
  // String literals
  // ---------------------------------------------------------------------

  /** A character a string literal takes as it is: no quote, backslash, line break or '\0'. */
  predicate IsPlainStringChar(c: char) {
    c != '"' && c != '\\' && c != '\r' && c != '\n' && c != '\0'
  }

  /** One plain character is appended to the value. */
  lemma PlainStep(source: SourceText, s: LexState, value: string)
    requires Fits(source.text, s.w) && s.w.End() < |source.text| && IsPlainStringChar(source.text[s.w.End()])
    ensures StringBody(source, s, value)
         == StringBody(source, s.(w := Window(s.w.start, s.w.length + 1)), value + [source.text[s.w.End()]])
  {
    assert Extended(source.text, s.w, 1) == Window(s.w.start, s.w.length + 1);
    assert WindowPeek(source.text, s.w, 0) == source.text[s.w.End()];
  }

  /** Plain characters are appended to the value one by one. */
  lemma {:induction false} StringBodyPlain(source: SourceText, s: LexState, value: string, body: string)
    requires Fits(source.text, s.w) && s.w.End() + |body| <= |source.text|
    requires source.text[s.w.End()..s.w.End() + |body|] == body
    requires forall i :: 0 <= i < |body| ==> IsPlainStringChar(body[i])
    ensures StringBody(source, s, value)
         == StringBody(source, s.(w := Window(s.w.start, s.w.length + |body|)), value + body)
    decreases |body|
  {
    if body == [] {
      AppendNothing(value);
      NoGrowth(s, body);
    } else {
      var t := source.text;
      var e := s.w.End();
      var s1 := s.(w := Window(s.w.start, s.w.length + 1));
      SliceHead(t, e, body);
      PlainStep(source, s, value);
      StringBodyPlain(source, s1, value + [body[0]], body[1..]);
      HeadThenTail(value, body);
      Regrow(s, body);
    }
  }

  /** Growing the window over nothing leaves the state as it was. */
  lemma NoGrowth(s: LexState, body: string)
    requires body == []
    ensures s.(w := Window(s.w.start, s.w.length + |body|)) == s
  {
  }

  /** Growing the window by one and then over the rest of `body` grows it over all of `body`. */
  lemma Regrow(s: LexState, body: string)
    requires |body| > 0
    ensures var s1 := s.(w := Window(s.w.start, s.w.length + 1));
      s1.(w := Window(s1.w.start, s1.w.length + |body[1..]|)) == s.(w := Window(s.w.start, s.w.length + |body|))
  {
  }

  /** A slice that spells a non-empty `body` starts with its first element, then spells the rest. */
  lemma SliceHead<T>(t: seq<T>, e: nat, body: seq<T>)
    requires |body| > 0 && e + |body| <= |t| && t[e..e + |body|] == body
    ensures t[e] == body[0] && t[e + 1..e + 1 + |body[1..]|] == body[1..]
  {
    assert t[e..e + |body|][0] == t[e];
    assert t[e + 1..e + 1 + |body[1..]|] == t[e..e + |body|][1..];
  }

  /** Appending the first element and then the rest appends the whole. */
  lemma HeadThenTail<T>(value: seq<T>, body: seq<T>)
    requires |body| > 0
    ensures value + [body[0]] + body[1..] == value + body
  {
    assert [body[0]] + body[1..] == body;
  }

  /** A run of plain characters in the text becomes the value, and the window covers it. */
  lemma StringBodyThrough(source: SourceText, s: LexState, body: string)
    requires Fits(source.text, s.w) && s.w.End() + |body| <= |source.text|
    requires source.text[s.w.End()..s.w.End() + |body|] == body
    requires forall i :: 0 <= i < |body| ==> IsPlainStringChar(body[i])
    ensures StringBody(source, s, "") == StringBody(source, s.(w := Window(s.w.start, s.w.length + |body|)), body)
  {
    EmptyPrefix(body);
    StringBodyPlain(source, s, "", body);
  }

  /** The empty string is a left unit of concatenation. */
  lemma EmptyPrefix(b: string)
    ensures "" + b == b
  {
  }

  /** Splitting a slice that spells `a + b`. */
  lemma SliceSplit<T>(t: seq<T>, e: nat, a: seq<T>, b: seq<T>)
    requires e + |a| + |b| <= |t| && t[e..e + |a| + |b|] == a + b
    ensures t[e..e + |a|] == a && t[e + |a|..e + |a| + |b|] == b
  {
    assert t[e..e + |a|] == t[e..e + |a| + |b|][..|a|];
    assert t[e + |a|..e + |a| + |b|] == t[e..e + |a| + |b|][|a|..];
  }

  /** After the opening quote, the body and then the closing quote. */
  lemma OpenQuote(source: SourceText, s: LexState, body: string, rest: string)
    requires Fits(source.text, s.w) && s.w.End() + 1 + |body| + |rest| <= |source.text|
    requires source.text[s.w.End()..s.w.End() + 1 + |body| + |rest|] == "\"" + body + rest
    ensures Extended(source.text, s.w, 1) == Window(s.w.start, s.w.length + 1)
    ensures source.text[s.w.End() + 1..s.w.End() + 1 + |body|] == body
    ensures source.text[s.w.End() + 1 + |body|..s.w.End() + 1 + |body| + |rest|] == rest
  {
    var t := source.text;
    var e := s.w.End();
    SliceSplit(t, e, "\"", body + rest);
    assert "\"" + body + rest == "\"" + (body + rest);
    SliceSplit(t, e + 1, body, rest);
  }

  /**
   * A closed literal without escapes: its value is the text between the
   * quotes, the token covers both quotes, and nothing is reported.
   */
  lemma ClosedStringLiteral(source: SourceText, s: LexState, body: string)
    requires Fits(source.text, s.w)
    requires s.w.End() + |body| + 2 <= |source.text|
    requires source.text[s.w.End()..s.w.End() + |body| + 2] == "\"" + body + "\""
    requires forall i :: 0 <= i < |body| ==> IsPlainStringChar(body[i])
    ensures StringLiteral(source, s)
         == TokenScan(s.(w := Window(s.w.start, s.w.length + |body| + 2)), StringToken, Some(StringValue(body)))
  {
    var t := source.text;
    var e := s.w.End();
    OpenQuote(source, s, body, "\"");
    var s1 := s.(w := Window(s.w.start, s.w.length + 1));
    StringBodyThrough(source, s1, body);
    var s2 := s.(w := Window(s.w.start, s.w.length + 1 + |body|));
    assert s1.(w := Window(s1.w.start, s1.w.length + |body|)) == s2;
    assert WindowPeek(t, s2.w, 0) == t[e + 1 + |body|] == '"';
  }

  /**
   * A literal the text or the line ends inside, without escapes: its value
   * is the text after the quote, the token stops before the line break, and
   * one `UnterminatedStringLiteral` spans the token.
   */
  lemma UnterminatedStringLiteral(source: SourceText, s: LexState, body: string)
    requires Fits(source.text, s.w)
    requires s.w.End() + |body| + 1 <= |source.text|
    requires source.text[s.w.End()..s.w.End() + |body| + 1] == "\"" + body
    requires forall i :: 0 <= i < |body| ==> IsPlainStringChar(body[i])
    requires s.w.End() + |body| + 1 == |source.text| || source.text[s.w.End() + |body| + 1] in {'\r', '\n'}
    ensures var w := Window(s.w.start, s.w.length + |body| + 1);
      StringLiteral(source, s)
      == TokenScan(Report(s.(w := w), Diagnostics.UnterminatedStringLiteral, WindowLocation(source, w), []),
                   StringToken, Some(StringValue(body)))
  {
    var t := source.text;
    var e := s.w.End();
    assert "\"" + body == "\"" + body + "";
    OpenQuote(source, s, body, "");
    var s1 := s.(w := Window(s.w.start, s.w.length + 1));
    StringBodyThrough(source, s1, body);
    var w := Window(s.w.start, s.w.length + |body| + 1);
    assert s1.(w := Window(s1.w.start, s1.w.length + |body|)) == s.(w := w);
    StringBodyEnds(source, s.(w := w), body);
  }

  /** A line break or the end of the text ends a literal, the line break being given back. */
  lemma StringBodyEnds(source: SourceText, s: LexState, value: string)
    requires Fits(source.text, s.w)
    requires s.w.End() == |source.text| || source.text[s.w.End()] in {'\r', '\n'}
    ensures StringBody(source, s, value)
         == StringScan(Report(s, Diagnostics.UnterminatedStringLiteral, WindowLocation(source, s.w), []), value)
  {
    var t := source.text;
    var c := WindowPeek(t, s.w, 0);
    if c == '\r' || c == '\n' {
      assert Shrunk(Extended(t, s.w, 1), 1) == s.w;
    } else {
      assert Extended(t, s.w, 1) == s.w;
    }
  }
}
