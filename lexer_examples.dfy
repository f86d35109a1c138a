/**
 * The tokenizer on particular texts: each lemma computes what
 * `GetNextToken` gives for one input, as the tokenizer's unit tests
 * describe it.
 */
module LexerExamples {

  import opened Wrappers
  import opened Strings
  import opened Text
  import opened TextWindows
  import opened SyntaxFacts
  import opened Diagnostics
  import opened Syntax
  import opened Lexer
  import opened LexerProperties

  /** A step whose three parts are known is the token they make. */
  lemma GetNextTokenParts(source: SourceText, s: LexState, s1: LexState, scan: TokenScan, s3: LexState)
    requires Fits(source.text, s.w) && ReadTrivia(source, s) == Ok(s1)
    requires ReadToken(source, s1) == Ok(scan)
    requires ReadTrivia(source, scan.next.(w := Committed(scan.next.w))) == Ok(s3)
    ensures GetNextToken(source, s)
         == Ok(Lexed(SyntaxToken(scan.kind, s1.w.start, WindowContent(source.text, scan.next.w), scan.value,
                                 s1.trivia, s3.trivia), s3))
  {
  }

  /** Where no trivia starts, `ReadTrivia` only clears the trivia and empties the window. */
  lemma NoTrivia(source: SourceText, s: LexState)
    requires Fits(source.text, s.w)
    requires var c := WindowPeek(source.text, s.w, 0);
      c == '\0' || (c != '/' && !IsLineBreak(c) && !IsWhiteSpace(c))
    ensures ReadTrivia(source, s) == Ok(s.(w := Emptied(s.w), trivia := []))
  {
  }

  /** A quote starts a string literal. */
  lemma QuoteStartsString(source: SourceText, s: LexState)
    requires Fits(source.text, s.w) && WindowPeek(source.text, s.w, 0) == '"'
    ensures ReadToken(source, s) == Ok(StringLiteral(source, s))
  {
  }

  /** The empty text is one end-of-file marker with no text and no trivia. */
  lemma EmptyText()
    ensures GetNextToken(FromText(""), Start())
         == Ok(Lexed(SyntaxToken(EndOfFileMarker, 0, "", None, [], []), Start()))
  {
    var src := FromText("");
    NoTrivia(src, Start());
    assert ReadToken(src, Start()) == Ok(TokenScan(Start(), EndOfFileMarker, None));
    GetNextTokenParts(src, Start(), Start(), TokenScan(Start(), EndOfFileMarker, None), Start());
  }

  /**
   * A quote and plain characters up to the end of the text: one string
   * token over the whole text whose value is the characters after the
   * quote, and one `UnterminatedStringLiteral` over the whole token.
   */
  lemma UnterminatedToEnd(src: SourceText)
    requires |src.text| > 0 && src.text[0] == '"'
    requires forall i :: 1 <= i < |src.text| ==> IsPlainStringChar(src.text[i])
    ensures GetNextToken(src, Start())
      == Ok(Lexed(SyntaxToken(StringToken, 0, src.text, Some(StringValue(src.text[1..])), [], []),
                  LexState(Window(|src.text|, 0), [], [UnterminatedOver(src, |src.text|)])))
  {
    var n := |src.text|;
    var body := src.text[1..];
    var after := LexState(Window(0, n), [], [UnterminatedOver(src, n)]);
    PeekAtFirst(src.text);
    PeekAtEnd(src.text);
    WholeWindow(src.text);
    HeadAndTail(src.text);
    NoTrivia(src, Start());
    QuoteStartsString(src, Start());
    LexerProperties.UnterminatedStringLiteral(src, Start(), body);
    ReportedFromStart(src, body);
    NoTrivia(src, LexState(Window(n, 0), [], [UnterminatedOver(src, n)]));
    GetNextTokenParts(src, Start(), Start(), TokenScan(after, StringToken, Some(StringValue(body))),
                      LexState(Window(n, 0), [], [UnterminatedOver(src, n)]));
  }

  /** The diagnostic for an unterminated literal over the first `n` characters. */
  function UnterminatedOver(src: SourceText, n: nat): Diagnostic {
    Diagnostic(Diagnostics.UnterminatedStringLiteral, TextLocation(src, TextSpan(0, n)), [])
  }

  /** The first character of a non-empty text, seen through the empty window at its start. */
  lemma PeekAtFirst(t: string)
    requires |t| > 0
    ensures WindowPeek(t, Window(0, 0), 0) == t[0]
  {
  }

  /** Past the end of a text a window sees the null character. */
  lemma PeekAtEnd(t: string)
    ensures WindowPeek(t, Window(|t|, 0), 0) == '\0'
  {
  }

  /** The window over all of a text holds the text. */
  lemma WholeWindow(t: string)
    ensures WindowContent(t, Window(0, |t|)) == t
  {
  }

  /** A non-empty sequence is its first element followed by the rest. */
  lemma HeadAndTail<T>(t: seq<T>)
    requires |t| > 0
    ensures t[0..|t|] == [t[0]] + t[1..]
  {
  }

  /** The state the literal reader leaves, written out. */
  lemma ReportedFromStart(src: SourceText, body: string)
    requires |src.text| == |body| + 1
    ensures var w := Window(Start().w.start, Start().w.length + |body| + 1);
      Report(Start().(w := w), Diagnostics.UnterminatedStringLiteral, WindowLocation(src, w), [])
      == LexState(Window(0, |src.text|), [], [UnterminatedOver(src, |src.text|)])
    ensures var s := LexState(Window(0, |src.text|), [], [UnterminatedOver(src, |src.text|)]);
      s.(w := Committed(s.w)).(w := Emptied(Committed(s.w)), trivia := [])
      == LexState(Window(|src.text|, 0), [], [UnterminatedOver(src, |src.text|)])
  {
    OneDiagnostic(UnterminatedOver(src, |src.text|));
  }

  /** One diagnostic after none. */
  lemma OneDiagnostic(d: Diagnostic)
    ensures [] + [d] == [d]
  {
  }


  /**
   * The corrected reader reads a block comment through the first `*` `/`
   * after position `s.w.End()`, whatever single stars come before it.
   */
  lemma {:induction false} BlockCommentRestCloses(source: SourceText, s: LexState, m: nat)
    requires Fits(source.text, s.w) && s.w.End() <= m && m + 1 < |source.text|
    requires source.text[m] == '*' && source.text[m + 1] == '/'
    requires forall k :: s.w.End() <= k < m ==>
      source.text[k] != '\0' && !(source.text[k] == '*' && source.text[k + 1] == '/')
    ensures BlockCommentRest(source, s)
         == Continue(Emit(source, s.(w := Window(s.w.start, m + 2 - s.w.start)), BlockCommentTrivia))
    decreases m - s.w.End()
  {
    var t := source.text;
    var w1 := ScannedUntil(t, s.w, IsStar);
    assert w1.End() <= m;
    assert t[w1.End()] == '*' by {
      if w1.End() < m { assert t[w1.End()] != '\0'; }
    }
    var w2 := Extended(t, w1, 1);
    assert w2 == Window(s.w.start, w1.End() + 1 - s.w.start);
    BlockCommentRestStep(source, s);
    if t[w1.End() + 1] == '/' {
      assert w1.End() == m;
      assert Extended(t, w2, 1) == Window(s.w.start, m + 2 - s.w.start);
    } else {
      assert w1.End() < m;
      BlockCommentRestCloses(source, s.(w := w2), m);
    }
  }

  /** One round of the block comment reader after a `*`: it closes on `/`, or reads on. */
  lemma BlockCommentRestStep(source: SourceText, s: LexState)
    requires Fits(source.text, s.w)
    requires var w1 := ScannedUntil(source.text, s.w, IsStar);
      !AtEnd(source.text, w1) && WindowPeek(source.text, w1, 0) == '*'
    ensures var t := source.text; var w2 := Extended(t, ScannedUntil(t, s.w, IsStar), 1);
      if WindowPeek(t, w2, 0) == '/'
      then BlockCommentRest(source, s) == Continue(Emit(source, s.(w := Extended(t, w2, 1)), BlockCommentTrivia))
      else BlockCommentRest(source, s) == BlockCommentRest(source, s.(w := w2))
  {
  }

  /**
   * The block comment as the source reads it stops at the first `*`: when no
   * `/` follows that star, nothing is emitted and the characters read stay in
   * the window, while the corrected reader emits the whole comment through
   * the first `*` `/`.
   */
  lemma StarInsideComment(source: SourceText, s: LexState, j: nat, m: nat)
    requires Fits(source.text, s.w)
    requires s.w.End() + 2 <= j < m && m + 1 < |source.text|
    requires source.text[s.w.End()] == '/' && source.text[s.w.End() + 1] == '*'
    requires forall k :: s.w.End() + 2 <= k < j ==> source.text[k] != '\0' && source.text[k] != '*'
    requires source.text[j] == '*' && source.text[j + 1] != '/'
    requires source.text[m] == '*' && source.text[m + 1] == '/'
    requires forall k :: s.w.End() + 2 <= k < m ==>
      source.text[k] != '\0' && !(source.text[k] == '*' && source.text[k + 1] == '/')
    ensures MultiLineCommentAsWritten(source, s) == Continue(s.(w := Window(s.w.start, j + 1 - s.w.start)))
    ensures MultiLineComment(source, s)
         == Continue(Emit(source, s.(w := Window(s.w.start, m + 2 - s.w.start)), BlockCommentTrivia))
  {
    var t := source.text;
    var e := s.w.End();
    var w0 := Extended(t, s.w, 2);
    assert w0 == Window(s.w.start, s.w.length + 2);
    var w1 := ScannedUntil(t, w0, IsStar);
    assert w1.End() == j;
    BlockCommentRestCloses(source, s.(w := w0), m);
  }

  /**
   * The text made of a slash, a star, a space, a star, a space, a star and
   * a slash: as written, nothing is emitted after the first call; corrected,
   * it is one block comment.
   */
  lemma StarInsideCommentExample(src: SourceText)
    requires |src.text| == 7
    requires src.text[0] == '/' && src.text[1] == '*' && src.text[2] == ' ' && src.text[3] == '*'
    requires src.text[4] == ' ' && src.text[5] == '*' && src.text[6] == '/'
    ensures MultiLineCommentAsWritten(src, Start()) == Continue(LexState(Window(0, 4), [], []))
    ensures MultiLineComment(src, Start())
         == Continue(LexState(Window(7, 0), [SyntaxTrivia(BlockCommentTrivia, 0, src.text)], []))
  {
    StarInsideComment(src, Start(), 3, 5);
    WholeWindow(src.text);
  }

  /**
   * The trivia loop on that text, as written: the comment reader leaves
   * slash, star, space, star in the window and the white-space reader
   * carries on from them, so the five characters before the third star
   * become one white-space trivia.
   */
  lemma StarInsideCommentTrivia(src: SourceText)
    requires |src.text| == 7
    requires src.text[0] == '/' && src.text[1] == '*' && src.text[2] == ' ' && src.text[3] == '*'
    requires src.text[4] == ' ' && src.text[5] == '*' && src.text[6] == '/'
    ensures ReadTriviaLoop(src, Start()) == Ok(LexState(Window(5, 0), [SyntaxTrivia(WhitespaceTrivia, 0, src.text[..5])], []))
  {
    StarInsideCommentExample(src);
    var s1 := LexState(Window(0, 4), [], []);
    assert ReadOneTrivia(src, Start()) == Continue(s1);
    SpaceAfterUnclosedComment(src);
    var s2 := LexState(Window(5, 0), [SyntaxTrivia(WhitespaceTrivia, 0, src.text[..5])], []);
    assert WindowPeek(src.text, s2.w, 0) == '*';
    assert ReadOneTrivia(src, s2) == Stop;
    assert ReadTriviaLoop(src, s2) == Ok(s2);
    assert ReadTriviaLoop(src, s1) == ReadTriviaLoop(src, s2);
  }

  /** The second step of that loop: the white-space reader takes the space after the window's four characters. */
  lemma SpaceAfterUnclosedComment(src: SourceText)
    requires |src.text| == 7
    requires src.text[0] == '/' && src.text[1] == '*' && src.text[2] == ' ' && src.text[3] == '*'
    requires src.text[4] == ' ' && src.text[5] == '*' && src.text[6] == '/'
    ensures ReadOneTrivia(src, LexState(Window(0, 4), [], []))
         == Continue(LexState(Window(5, 0), [SyntaxTrivia(WhitespaceTrivia, 0, src.text[..5])], []))
  {
    var t := src.text;
    var s1 := LexState(Window(0, 4), [], []);
    assert ScanWhile(t, 4, IsWhiteSpace) == 5 by {
      ScanWhileIsFirstStop(t, 4, IsWhiteSpace, 5);
    }
    assert Whitespace(src, s1) == LexState(Window(5, 0), [SyntaxTrivia(WhitespaceTrivia, 0, t[..5])], []) by {
      assert t[0..5] == t[..5];
    }
    assert WindowPeek(t, s1.w, 0) == ' ';
  }

  /**
   * The same text through the tokenizer as written: the first token is the
   * third star, with the five characters before it as one white-space trivia.
   */
  lemma StarInsideCommentToken(src: SourceText)
    requires |src.text| == 7
    requires src.text[0] == '/' && src.text[1] == '*' && src.text[2] == ' ' && src.text[3] == '*'
    requires src.text[4] == ' ' && src.text[5] == '*' && src.text[6] == '/'
    ensures GetNextToken(src, Start())
         == Ok(Lexed(SyntaxToken(StarToken, 5, "*", None, [SyntaxTrivia(WhitespaceTrivia, 0, src.text[..5])], []),
                     LexState(Window(6, 0), [], [])))
  {
    var t := src.text;
    StarInsideCommentTrivia(src);
    var s2 := LexState(Window(5, 0), [SyntaxTrivia(WhitespaceTrivia, 0, t[..5])], []);
    assert Start().(trivia := []) == Start();
    var scan := TokenScan(LexState(Window(5, 1), s2.trivia, []), StarToken, None);
    assert ReadToken(src, s2) == Ok(scan);
    var s3 := LexState(Window(6, 0), [], []);
    assert ReadTrivia(src, s3) == Ok(s3);
    assert WindowContent(t, Window(5, 1)) == "*";
    GetNextTokenParts(src, Start(), s2, scan, s3);
  }
}
