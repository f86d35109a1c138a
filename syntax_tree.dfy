/**
 * `SyntaxTree`: the whole text read into tokens, the tokens of unexpected
 * characters folded into the trivia of the token after them, the parse,
 * and the child-to-parent map built on the first request for a parent.
 *
 * A node of a tree is named by its path: the child indices that lead to
 * it from the root, `[]` being the root itself.
 */
module SyntaxTrees {

  import opened Wrappers
  import opened Text
  import opened TextWindows
  import opened SyntaxFacts
  import opened Diagnostics
  import opened Syntax
  import opened Writers
  import opened Lexer
  import opened LexerProperties
  import ParserSpec
  import opened Tokenizers
  import opened Parsers

  // ---------------------------------------------------------------------
  // The token stream of a text
  // ---------------------------------------------------------------------

  /** Tokens read from a text, with the tokenizer's diagnostics. */
  datatype TokenRun = TokenRun(tokens: seq<SyntaxToken>, diagnostics: seq<Diagnostic>)

  /**
   * The `while (true)` loop of `ParseTokens` from state `s`, after the
   * tokens `tokens`: every token up to the first end-of-file marker, that
   * marker being kept only when `includeEndOfFile` is set.
   */
  function ReadTokensFrom(source: SourceText, s: LexState, tokens: seq<SyntaxToken>,
                          includeEndOfFile: bool): Result<TokenRun>
    requires Fits(source.text, s.w)
    decreases |source.text| - s.w.start
  {
    match GetNextToken(source, s)
    case Fatal(e) => Fatal(e)
    case Ok(lexed) =>
      GetNextTokenProgress(source, s);
      var kept := if includeEndOfFile || lexed.token.kind != EndOfFileMarker then tokens + [lexed.token] else tokens;
      if lexed.token.kind == EndOfFileMarker then Ok(TokenRun(kept, lexed.next.diags))
      else ReadTokensFrom(source, lexed.next, kept, includeEndOfFile)
  }

  /** `SyntaxTree.ParseTokens(text, out diagnostics, includeEndOfFile)`. */
  function ReadTokens(text: string, includeEndOfFile: bool): Result<TokenRun> {
    ReadTokensFrom(FromText(text), Start(), [], includeEndOfFile)
  }

  /** No end-of-file marker among `ts`. */
  predicate NoEndOfFile(ts: seq<SyntaxToken>) {
    forall i :: 0 <= i < |ts| ==> ts[i].kind != EndOfFileMarker
  }

  /** `r` starts with `tokens`, and each token after them is of a kind the tokenizer produces. */
  predicate Extends(tokens: seq<SyntaxToken>, r: seq<SyntaxToken>) {
    tokens <= r && forall i :: |tokens| <= i < |r| ==> IsLexedKind(r[i].kind)
  }

  /**
   * The loop stops at the first end-of-file marker: with the marker
   * included it is the last token and no other, without it there is
   * none; every token read is of a kind the tokenizer produces.
   */
  lemma ReadTokensStopsAtEndOfFile(source: SourceText, s: LexState, tokens: seq<SyntaxToken>,
                                   includeEndOfFile: bool)
    requires Fits(source.text, s.w) && NoEndOfFile(tokens)
    requires ReadTokensFrom(source, s, tokens, includeEndOfFile).Ok?
    ensures var r := ReadTokensFrom(source, s, tokens, includeEndOfFile).value.tokens;
      && Extends(tokens, r)
      && (includeEndOfFile ==> |r| > 0 && r[|r| - 1].kind == EndOfFileMarker && NoEndOfFile(r[..|r| - 1]))
      && (!includeEndOfFile ==> NoEndOfFile(r))
  {
    StopsAtEndOfFile(source, s, tokens, includeEndOfFile, ReadTokensFrom(source, s, tokens, includeEndOfFile).value.tokens);
  }

  lemma {:induction false} StopsAtEndOfFile(source: SourceText, s: LexState, tokens: seq<SyntaxToken>,
                                            includeEndOfFile: bool, r: seq<SyntaxToken>)
    requires Fits(source.text, s.w) && NoEndOfFile(tokens)
    requires ReadTokensFrom(source, s, tokens, includeEndOfFile).Ok?
    requires ReadTokensFrom(source, s, tokens, includeEndOfFile).value.tokens == r
    ensures Extends(tokens, r)
    ensures includeEndOfFile ==> |r| > 0 && r[|r| - 1].kind == EndOfFileMarker && NoEndOfFile(r[..|r| - 1])
    ensures !includeEndOfFile ==> NoEndOfFile(r)
    decreases |source.text| - s.w.start
  {
    var g := GetNextToken(source, s);
    ReadTokensStep(source, s, tokens, includeEndOfFile, g);
    var lexed := g.value;
    GetNextTokenProgress(source, s);
    var kept := if includeEndOfFile || lexed.token.kind != EndOfFileMarker then tokens + [lexed.token] else tokens;
    if lexed.token.kind == EndOfFileMarker {
      if includeEndOfFile {
        KeptMarker(tokens, lexed.token, r);
      } else {
        assert r == tokens;
      }
    } else {
      KeptToken(tokens, lexed.token);
      StopsAtEndOfFile(source, lexed.next, kept, includeEndOfFile, r);
      ExtendsStep(tokens, lexed.token, r);
    }
  }

  lemma KeptMarker(tokens: seq<SyntaxToken>, marker: SyntaxToken, r: seq<SyntaxToken>)
    requires NoEndOfFile(tokens) && marker.kind == EndOfFileMarker && IsLexedKind(marker.kind) && r == tokens + [marker]
    ensures Extends(tokens, r) && |r| > 0 && r[|r| - 1].kind == EndOfFileMarker && NoEndOfFile(r[..|r| - 1])
  {
    assert r[..|r| - 1] == tokens;
  }

  lemma ExtendsStep(tokens: seq<SyntaxToken>, token: SyntaxToken, r: seq<SyntaxToken>)
    requires Extends(tokens + [token], r) && IsLexedKind(token.kind)
    ensures Extends(tokens, r)
  {
    assert r[|tokens|] == (tokens + [token])[|tokens|];
  }

  lemma KeptToken(tokens: seq<SyntaxToken>, token: SyntaxToken)
    requires NoEndOfFile(tokens) && token.kind != EndOfFileMarker
    ensures NoEndOfFile(tokens + [token]) && tokens <= tokens + [token]
  {
  }

  /**
   * The end-of-file marker is all that `includeEndOfFile` adds: both
   * loops fail or succeed together, with the same diagnostics, and the
   * tokens with the marker are the tokens without it, then the marker.
   */
  lemma {:induction false} IncludeEndOfFileAddsMarker(source: SourceText, s: LexState, tokens: seq<SyntaxToken>)
    requires Fits(source.text, s.w)
    ensures var with, without := ReadTokensFrom(source, s, tokens, true), ReadTokensFrom(source, s, tokens, false);
      && (with.Ok? <==> without.Ok?)
      && (with.Ok? ==> with.value.diagnostics == without.value.diagnostics
                       && |with.value.tokens| == |without.value.tokens| + 1
                       && with.value.tokens[..|without.value.tokens|] == without.value.tokens
                       && with.value.tokens[|without.value.tokens|].kind == EndOfFileMarker)
    decreases |source.text| - s.w.start
  {
    match GetNextToken(source, s)
    case Fatal(_) =>
    case Ok(lexed) =>
      GetNextTokenProgress(source, s);
      if lexed.token.kind == EndOfFileMarker {
        assert (tokens + [lexed.token])[..|tokens|] == tokens;
      } else {
        IncludeEndOfFileAddsMarker(source, lexed.next, tokens + [lexed.token]);
      }
  }

  /** The tokens read after `tokens` do not depend on them. */
  lemma {:induction false} ReadTokensAppends(source: SourceText, s: LexState, tokens: seq<SyntaxToken>)
    requires Fits(source.text, s.w)
    ensures var r, alone := ReadTokensFrom(source, s, tokens, true), ReadTokensFrom(source, s, [], true);
      && (r.Ok? <==> alone.Ok?)
      && (r.Ok? ==> r.value == TokenRun(tokens + alone.value.tokens, alone.value.diagnostics))
    decreases |source.text| - s.w.start
  {
    var g := GetNextToken(source, s);
    ReadTokensStep(source, s, tokens, true, g);
    ReadTokensStep(source, s, [], true, g);
    if g.Ok? {
      var lexed := g.value;
      GetNextTokenProgress(source, s);
      EmptyThen([lexed.token]);
      if lexed.token.kind != EndOfFileMarker {
        ReadTokensAppends(source, lexed.next, tokens + [lexed.token]);
        ReadTokensAppends(source, lexed.next, [lexed.token]);
        var rest := ReadTokensFrom(source, lexed.next, [], true);
        if rest.Ok? {
          AppendAssoc(tokens, [lexed.token], rest.value.tokens);
        }
      }
    }
  }

  // ---------------------------------------------------------------------
  // Folding the tokens of unexpected characters into trivia
  // ---------------------------------------------------------------------

  /** What one collected token turns into: its leading trivia, its text as skipped text, its trailing trivia. */
  function SkippedPart(bad: SyntaxToken): seq<SyntaxTrivia> {
    bad.leading + [SyntaxTrivia(SkippedTextTrivia, bad.position, bad.text)] + bad.trailing
  }

  /** The trivia the collected tokens turn into, in the order they were collected. */
  function SkippedTrivia(bad: seq<SyntaxToken>): seq<SyntaxTrivia> {
    if bad == [] then [] else SkippedTrivia(bad[..|bad| - 1]) + SkippedPart(bad[|bad| - 1])
  }

  /**
   * The token after the collected ones: its own leading trivia, then what
   * the collected tokens turn into; unchanged when none were collected.
   */
  function Folded(token: SyntaxToken, bad: seq<SyntaxToken>): (r: SyntaxToken)
    ensures r.kind == token.kind && r.position == token.position && r.text == token.text
    ensures r.value == token.value && r.trailing == token.trailing
    ensures r.leading == token.leading + SkippedTrivia(bad)
  {
    if |bad| > 0 then token.WithLeadingTrivia(token.leading + SkippedTrivia(bad)) else token
  }

  /**
   * The `do ... while` loop of `Parse` from state `s`, after the tokens
   * `tokens`, with the tokens `bad` collected: a token of kind `folded` is
   * collected, any other is added with the collected ones folded into it,
   * and the end-of-file marker ends the loop.
   */
  function TokenLoop(source: SourceText, s: LexState, tokens: seq<SyntaxToken>, bad: seq<SyntaxToken>,
                     folded: SyntaxKind): Result<TokenRun>
    requires Fits(source.text, s.w) && folded != EndOfFileMarker
    decreases |source.text| - s.w.start
  {
    match GetNextToken(source, s)
    case Fatal(e) => Fatal(e)
    case Ok(lexed) =>
      GetNextTokenProgress(source, s);
      var token := lexed.token;
      if token.kind == folded then TokenLoop(source, lexed.next, tokens, bad + [token], folded)
      else if token.kind == EndOfFileMarker then Ok(TokenRun(tokens + [Folded(token, bad)], lexed.next.diags))
      else TokenLoop(source, lexed.next, tokens + [Folded(token, bad)], [], folded)
  }

  /** The same folding over a finished list of tokens. */
  function FoldAll(raw: seq<SyntaxToken>, bad: seq<SyntaxToken>, folded: SyntaxKind): seq<SyntaxToken>
    decreases |raw|
  {
    if raw == [] then []
    else if raw[0].kind == folded then FoldAll(raw[1..], bad + [raw[0]], folded)
    else [Folded(raw[0], bad)] + FoldAll(raw[1..], [], folded)
  }

  /** One step of `ParseTokens`' loop, for a known result of the tokenizer. */
  lemma ReadTokensStep(source: SourceText, s: LexState, tokens: seq<SyntaxToken>, includeEndOfFile: bool,
                       g: Result<Lexed>)
    requires Fits(source.text, s.w) && g == GetNextToken(source, s)
    ensures g.Fatal? ==> ReadTokensFrom(source, s, tokens, includeEndOfFile) == Fatal(g.reason)
    ensures g.Ok? ==>
      var kept := if includeEndOfFile || g.value.token.kind != EndOfFileMarker then tokens + [g.value.token] else tokens;
      ReadTokensFrom(source, s, tokens, includeEndOfFile)
      == if g.value.token.kind == EndOfFileMarker then Ok(TokenRun(kept, g.value.next.diags))
         else ReadTokensFrom(source, g.value.next, kept, includeEndOfFile)
  {
  }

  /** One step of `Parse`'s loop, for a known result of the tokenizer. */
  lemma TokenLoopStep(source: SourceText, s: LexState, tokens: seq<SyntaxToken>, bad: seq<SyntaxToken>,
                      folded: SyntaxKind, g: Result<Lexed>)
    requires Fits(source.text, s.w) && folded != EndOfFileMarker && g == GetNextToken(source, s)
    ensures g.Fatal? ==> TokenLoop(source, s, tokens, bad, folded) == Fatal(g.reason)
    ensures g.Ok? ==>
      var token := g.value.token;
      TokenLoop(source, s, tokens, bad, folded)
      == if token.kind == folded then TokenLoop(source, g.value.next, tokens, bad + [token], folded)
         else if token.kind == EndOfFileMarker then Ok(TokenRun(tokens + [Folded(token, bad)], g.value.next.diags))
         else TokenLoop(source, g.value.next, tokens + [Folded(token, bad)], [], folded)
  {
  }

  /** `Parse`'s loop ends with the end-of-file marker, so the parser gets a well-formed token list. */
  lemma {:induction false} TokenLoopEnds(source: SourceText, s: LexState, tokens: seq<SyntaxToken>,
                                         bad: seq<SyntaxToken>, folded: SyntaxKind, loop: Result<TokenRun>)
    requires Fits(source.text, s.w) && folded != EndOfFileMarker
    requires loop == TokenLoop(source, s, tokens, bad, folded)
    ensures loop.Ok? ==> ParserSpec.WellFormedTokens(loop.value.tokens)
    decreases |source.text| - s.w.start
  {
    var g := GetNextToken(source, s);
    TokenLoopStep(source, s, tokens, bad, folded, g);
    if g.Ok? {
      GetNextTokenProgress(source, s);
      var token := g.value.token;
      if token.kind == folded {
        TokenLoopEnds(source, g.value.next, tokens, bad + [token], folded,
                      TokenLoop(source, g.value.next, tokens, bad + [token], folded));
      } else if token.kind == EndOfFileMarker {
        LastOfSnoc(tokens, Folded(token, bad));
      } else {
        TokenLoopEnds(source, g.value.next, tokens + [Folded(token, bad)], [], folded,
                      TokenLoop(source, g.value.next, tokens + [Folded(token, bad)], [], folded));
      }
    }
  }

  /** The last element of `a + [x]` is `x`. */
  lemma LastOfSnoc<T>(a: seq<T>, x: T)
    ensures |a + [x]| > 0 && (a + [x])[|a + [x]| - 1] == x
  {
  }

  /**
   * `Parse`'s loop is `ParseTokens` followed by the folding: it fails
   * where `ParseTokens` fails, and otherwise gives the folded tokens of
   * `ParseTokens` with the same diagnostics.
   */
  lemma TokenLoopFoldsReadTokens(source: SourceText, s: LexState, tokens: seq<SyntaxToken>,
                                 bad: seq<SyntaxToken>, folded: SyntaxKind)
    requires Fits(source.text, s.w) && folded != EndOfFileMarker
    ensures var loop, raw := TokenLoop(source, s, tokens, bad, folded), ReadTokensFrom(source, s, [], true);
      && (loop.Ok? <==> raw.Ok?)
      && (loop.Ok? ==> loop.value == TokenRun(tokens + FoldAll(raw.value.tokens, bad, folded), raw.value.diagnostics))
  {
    FoldsAlong(source, s, tokens, bad, folded, TokenLoop(source, s, tokens, bad, folded), ReadTokensFrom(source, s, [], true));
  }

  lemma {:induction false} FoldsAlong(source: SourceText, s: LexState, tokens: seq<SyntaxToken>,
                                      bad: seq<SyntaxToken>, folded: SyntaxKind, loop: Result<TokenRun>, raw: Result<TokenRun>)
    requires Fits(source.text, s.w) && folded != EndOfFileMarker
    requires loop == TokenLoop(source, s, tokens, bad, folded) && raw == ReadTokensFrom(source, s, [], true)
    ensures loop.Ok? <==> raw.Ok?
    ensures loop.Ok? ==> loop.value == TokenRun(tokens + FoldAll(raw.value.tokens, bad, folded), raw.value.diagnostics)
    decreases |source.text| - s.w.start
  {
    var g := GetNextToken(source, s);
    TokenLoopStep(source, s, tokens, bad, folded, g);
    ReadTokensStep(source, s, [], true, g);
    if g.Ok? {
      var lexed := g.value;
      GetNextTokenProgress(source, s);
      var token := lexed.token;
      EmptyThen([token]);
      if token.kind == EndOfFileMarker {
        FoldOne(token, bad, folded);
      } else {
        ReadTokensAppends(source, lexed.next, [token]);
        var rest := ReadTokensFrom(source, lexed.next, [], true);
        var tokens' := if token.kind == folded then tokens else tokens + [Folded(token, bad)];
        var bad' := if token.kind == folded then bad + [token] else [];
        var inner := TokenLoop(source, lexed.next, tokens', bad', folded);
        FoldsAlong(source, lexed.next, tokens', bad', folded, inner, rest);
        FoldStep(tokens, bad, folded, token, loop, inner, raw, rest);
      }
    }
  }

  /** One token that is not the end-of-file marker, then the rest of both loops. */
  lemma FoldStep(tokens: seq<SyntaxToken>, bad: seq<SyntaxToken>, folded: SyntaxKind, token: SyntaxToken,
                 loop: Result<TokenRun>, inner: Result<TokenRun>, raw: Result<TokenRun>, rest: Result<TokenRun>)
    requires loop == inner
    requires raw.Ok? <==> rest.Ok?
    requires rest.Ok? ==> raw.value == TokenRun([token] + rest.value.tokens, rest.value.diagnostics)
    requires inner.Ok? <==> rest.Ok?
    requires inner.Ok? ==>
      var tokens' := if token.kind == folded then tokens else tokens + [Folded(token, bad)];
      var bad' := if token.kind == folded then bad + [token] else [];
      inner.value == TokenRun(tokens' + FoldAll(rest.value.tokens, bad', folded), rest.value.diagnostics)
    ensures loop.Ok? <==> raw.Ok?
    ensures loop.Ok? ==> loop.value == TokenRun(tokens + FoldAll(raw.value.tokens, bad, folded), raw.value.diagnostics)
  {
    if rest.Ok? {
      if token.kind == folded {
        FoldCollects(token, rest.value.tokens, bad, folded);
      } else {
        FoldKeeps(token, rest.value.tokens, bad, folded);
        AppendAssoc(tokens, [Folded(token, bad)], FoldAll(rest.value.tokens, [], folded));
      }
    }
  }

  lemma FoldOne(token: SyntaxToken, bad: seq<SyntaxToken>, folded: SyntaxKind)
    requires token.kind != folded
    ensures FoldAll([token], bad, folded) == [Folded(token, bad)]
  {
    assert [token][1..] == [];
  }

  lemma FoldCollects(token: SyntaxToken, rest: seq<SyntaxToken>, bad: seq<SyntaxToken>, folded: SyntaxKind)
    requires token.kind == folded
    ensures FoldAll([token] + rest, bad, folded) == FoldAll(rest, bad + [token], folded)
  {
    assert ([token] + rest)[1..] == rest;
  }

  lemma FoldKeeps(token: SyntaxToken, rest: seq<SyntaxToken>, bad: seq<SyntaxToken>, folded: SyntaxKind)
    requires token.kind != folded
    ensures FoldAll([token] + rest, bad, folded) == [Folded(token, bad)] + FoldAll(rest, [], folded)
  {
    assert ([token] + rest)[1..] == rest;
  }

  /** No token of the folded kind is left. */
  lemma {:induction false} FoldRemovesKind(raw: seq<SyntaxToken>, bad: seq<SyntaxToken>, folded: SyntaxKind)
    ensures forall i :: 0 <= i < |FoldAll(raw, bad, folded)| ==> FoldAll(raw, bad, folded)[i].kind != folded
    decreases |raw|
  {
    if raw != [] {
      if raw[0].kind == folded {
        FoldRemovesKind(raw[1..], bad + [raw[0]], folded);
      } else {
        FoldRemovesKind(raw[1..], [], folded);
      }
    }
  }

  /** The kinds of a token list. */
  function Kinds(ts: seq<SyntaxToken>): (r: seq<SyntaxKind>)
    ensures |r| == |ts| && forall i :: 0 <= i < |ts| ==> r[i] == ts[i].kind
  {
    seq(|ts|, i requires 0 <= i < |ts| => ts[i].kind)
  }

  /** The kinds of a token list with one kind left out, in order. */
  function KindsWithout(ts: seq<SyntaxToken>, k: SyntaxKind): seq<SyntaxKind> {
    if ts == [] then [] else (if ts[0].kind == k then [] else [ts[0].kind]) + KindsWithout(ts[1..], k)
  }

  /** Folding keeps every other token, in order: the kinds left are those of the tokens not folded. */
  lemma {:induction false} FoldKeepsOtherKinds(raw: seq<SyntaxToken>, bad: seq<SyntaxToken>, folded: SyntaxKind)
    ensures Kinds(FoldAll(raw, bad, folded)) == KindsWithout(raw, folded)
    decreases |raw|
  {
    if raw != [] {
      if raw[0].kind == folded {
        FoldKeepsOtherKinds(raw[1..], bad + [raw[0]], folded);
      } else {
        var rest := FoldAll(raw[1..], [], folded);
        FoldKeepsOtherKinds(raw[1..], [], folded);
        assert Kinds([Folded(raw[0], bad)] + rest) == [raw[0].kind] + Kinds(rest);
      }
    }
  }

  /** With no token of the folded kind, folding changes nothing. */
  lemma {:induction false} FoldWithoutKindIsIdentity(raw: seq<SyntaxToken>, folded: SyntaxKind)
    requires forall i :: 0 <= i < |raw| ==> raw[i].kind != folded
    ensures FoldAll(raw, [], folded) == raw
    decreases |raw|
  {
    if raw != [] {
      FoldWithoutKindIsIdentity(raw[1..], folded);
      assert raw == [raw[0]] + raw[1..];
    }
  }

  /** The texts of the skipped-text trivia among `ts`, in order. */
  function SkippedTexts(ts: seq<SyntaxTrivia>): seq<string> {
    if ts == [] then [] else (if ts[0].kind == SkippedTextTrivia then [ts[0].text] else []) + SkippedTexts(ts[1..])
  }

  lemma {:induction false} SkippedTextsAppend(a: seq<SyntaxTrivia>, b: seq<SyntaxTrivia>)
    ensures SkippedTexts(a + b) == SkippedTexts(a) + SkippedTexts(b)
    decreases |a|
  {
    if a == [] {
      assert a + b == b;
    } else {
      assert (a + b)[1..] == a[1..] + b;
      SkippedTextsAppend(a[1..], b);
      var head := if a[0].kind == SkippedTextTrivia then [a[0].text] else [];
      AppendAssoc(head, SkippedTexts(a[1..]), SkippedTexts(b));
    }
  }

  /** The skipped texts in the trivia of a token list, token by token, leading before trailing. */
  function TokenSkippedTexts(ts: seq<SyntaxToken>): seq<string> {
    if ts == [] then [] else SkippedTexts(ts[0].leading) + SkippedTexts(ts[0].trailing) + TokenSkippedTexts(ts[1..])
  }

  /** The texts of a token list. */
  function Texts(ts: seq<SyntaxToken>): (r: seq<string>)
    ensures |r| == |ts| && forall i :: 0 <= i < |ts| ==> r[i] == ts[i].text
  {
    seq(|ts|, i requires 0 <= i < |ts| => ts[i].text)
  }

  /** The texts of the tokens of one kind, in order. */
  function TextsOfKind(ts: seq<SyntaxToken>, k: SyntaxKind): seq<string> {
    if ts == [] then [] else (if ts[0].kind == k then [ts[0].text] else []) + TextsOfKind(ts[1..], k)
  }

  /** Tokens with no skipped text among their trivia. */
  predicate NoSkippedTrivia(ts: seq<SyntaxToken>) {
    forall i :: 0 <= i < |ts| ==> SkippedTexts(ts[i].leading) == [] && SkippedTexts(ts[i].trailing) == []
  }

  /** The skipped texts the collected tokens turn into are their texts, in order. */
  lemma {:induction false} SkippedTriviaTexts(bad: seq<SyntaxToken>)
    requires NoSkippedTrivia(bad)
    ensures SkippedTexts(SkippedTrivia(bad)) == Texts(bad)
    decreases |bad|
  {
    if |bad| > 0 {
      var init, last := bad[..|bad| - 1], bad[|bad| - 1];
      NoSkippedInit(bad);
      SkippedTriviaTexts(init);
      SkippedTextsAppend(SkippedTrivia(init), SkippedPart(last));
      SkippedPartTexts(last);
      SnocEqual(Texts(bad), Texts(init), last.text);
    }
  }

  lemma NoSkippedInit(bad: seq<SyntaxToken>)
    requires |bad| > 0 && NoSkippedTrivia(bad)
    ensures NoSkippedTrivia(bad[..|bad| - 1])
    ensures SkippedTexts(bad[|bad| - 1].leading) == [] && SkippedTexts(bad[|bad| - 1].trailing) == []
  {
    var init := bad[..|bad| - 1];
    forall i | 0 <= i < |init| ensures SkippedTexts(init[i].leading) == [] && SkippedTexts(init[i].trailing) == [] {
      assert init[i] == bad[i];
    }
  }

  /** A collected token with no skipped trivia of its own gives exactly its text. */
  lemma SkippedPartTexts(b: SyntaxToken)
    requires SkippedTexts(b.leading) == [] && SkippedTexts(b.trailing) == []
    ensures SkippedTexts(SkippedPart(b)) == [b.text]
  {
    var skipped := [SyntaxTrivia(SkippedTextTrivia, b.position, b.text)];
    SkippedTextsAppend(b.leading + skipped, b.trailing);
    SkippedTextsAppend(b.leading, skipped);
    assert skipped[1..] == [];
  }

  /**
   * Every folded token's text comes back as skipped text, in the order of
   * the tokens, provided the stream ends in a token that is not folded and
   * no trivia held skipped text before.
   */
  lemma {:induction false} FoldSkippedTexts(raw: seq<SyntaxToken>, bad: seq<SyntaxToken>, folded: SyntaxKind)
    requires NoSkippedTrivia(raw) && NoSkippedTrivia(bad)
    requires (|raw| == 0 && |bad| == 0) || (|raw| > 0 && raw[|raw| - 1].kind != folded)
    ensures TokenSkippedTexts(FoldAll(raw, bad, folded)) == Texts(bad) + TextsOfKind(raw, folded)
    decreases |raw|
  {
    if |raw| > 0 {
      var head, tail := raw[0], raw[1..];
      NoSkippedParts(raw);
      if head.kind == folded {
        assert |raw| > 1;
        assert tail[|tail| - 1] == raw[|raw| - 1];
        NoSkippedSnoc(bad, head);
        FoldSkippedTexts(tail, bad + [head], folded);
        CollectedTexts(bad, raw, folded);
      } else {
        if |tail| > 0 {
          assert tail[|tail| - 1] == raw[|raw| - 1];
        }
        FoldSkippedTexts(tail, [], folded);
        KeptTexts(head, bad, FoldAll(tail, [], folded));
        EmptyThen(TextsOfKind(tail, folded));
        assert Texts([]) == [];
      }
    }
  }

  lemma NoSkippedParts(raw: seq<SyntaxToken>)
    requires |raw| > 0 && NoSkippedTrivia(raw)
    ensures NoSkippedTrivia(raw[1..])
    ensures SkippedTexts(raw[0].leading) == [] && SkippedTexts(raw[0].trailing) == []
  {
    var tail := raw[1..];
    forall i | 0 <= i < |tail| ensures SkippedTexts(tail[i].leading) == [] && SkippedTexts(tail[i].trailing) == [] {
      assert tail[i] == raw[i + 1];
    }
  }

  lemma NoSkippedSnoc(bad: seq<SyntaxToken>, head: SyntaxToken)
    requires NoSkippedTrivia(bad) && SkippedTexts(head.leading) == [] && SkippedTexts(head.trailing) == []
    ensures NoSkippedTrivia(bad + [head])
  {
    forall i | 0 <= i < |bad + [head]|
      ensures SkippedTexts((bad + [head])[i].leading) == [] && SkippedTexts((bad + [head])[i].trailing) == []
    {
      if i < |bad| { assert (bad + [head])[i] == bad[i]; } else { assert (bad + [head])[i] == head; }
    }
  }

  /** A collected token's text goes after the texts of those collected before it. */
  lemma CollectedTexts(bad: seq<SyntaxToken>, raw: seq<SyntaxToken>, folded: SyntaxKind)
    requires |raw| > 0 && raw[0].kind == folded
    ensures Texts(bad + [raw[0]]) + TextsOfKind(raw[1..], folded) == Texts(bad) + TextsOfKind(raw, folded)
  {
    SnocEqual(Texts(bad + [raw[0]]), Texts(bad), raw[0].text);
    AppendAssoc(Texts(bad), [raw[0].text], TextsOfKind(raw[1..], folded));
  }

  /** The token that takes the collected ones holds their texts, and no other skipped text. */
  lemma KeptTexts(head: SyntaxToken, bad: seq<SyntaxToken>, rest: seq<SyntaxToken>)
    requires NoSkippedTrivia(bad) && SkippedTexts(head.leading) == [] && SkippedTexts(head.trailing) == []
    ensures TokenSkippedTexts([Folded(head, bad)] + rest) == Texts(bad) + TokenSkippedTexts(rest)
  {
    var token := Folded(head, bad);
    SkippedTriviaTexts(bad);
    SkippedTextsAppend(head.leading, SkippedTrivia(bad));
    assert ([token] + rest)[0] == token && ([token] + rest)[1..] == rest;
    EmptyThen(Texts(bad));
    AppendNothing(Texts(bad));
  }

  // ---------------------------------------------------------------------
  // Parsing a text
  // ---------------------------------------------------------------------

  /**
   * How `Parse` ends: a tree with the tokenizer's diagnostics followed by
   * the parser's, or an exception, or a loop that never ends.
   */
  datatype TreeOutcome = Parsed(root: CompilationUnitSyntax, diagnostics: seq<Diagnostic>) | Throws | Hangs

  /**
   * `Parse` with the tokens of kind `folded` turned into trivia: it throws
   * where the token loop throws, and a tree's diagnostics start with the
   * token loop's.
   */
  function ParseWith(source: SourceText, folded: SyntaxKind): (r: TreeOutcome)
    requires folded != EndOfFileMarker
    ensures TokenLoop(source, Start(), [], [], folded).Fatal? ==> r == Throws
    ensures r.Parsed? ==>
      TokenLoop(source, Start(), [], [], folded).Ok? &&
      TokenLoop(source, Start(), [], [], folded).value.diagnostics <= r.diagnostics
  {
    var loop := TokenLoop(source, Start(), [], [], folded);
    TokenLoopEnds(source, Start(), [], [], folded, loop);
    match loop
    case Fatal(_) => Throws
    case Ok(run) => ParseRun(source, run)
  }

  /** The parser over the tokens of a finished token loop; the tokenizer's diagnostics come first. */
  function ParseRun(source: SourceText, run: TokenRun): TreeOutcome
    requires ParserSpec.WellFormedTokens(run.tokens)
  {
    match ParserSpec.Parse(source, run.tokens)
    case Done(root, next) => Parsed(root, run.diagnostics + next.diags)
    case Fails(_) => Throws
    case Diverges => Hangs
  }

  /**
   * `Parse` as written: it folds the tokens of kind `BadToken`, which the
   * tokenizer never produces, so it is the parser over exactly the tokens
   * and diagnostics `ParseTokens` reads.
   */
  function ParseAsWritten(source: SourceText): (r: TreeOutcome)
    ensures ReadTokensFrom(source, Start(), [], true).Fatal? ==> r == Throws
    ensures ReadTokensFrom(source, Start(), [], true).Ok? ==>
      ParserSpec.WellFormedTokens(ReadTokensFrom(source, Start(), [], true).value.tokens) &&
      r == ParseRun(source, ReadTokensFrom(source, Start(), [], true).value)
  {
    AsWrittenIsUnfolded(source);
    ParseWith(source, BadToken)
  }

  /**
   * `Parse` as intended: the tokens of unexpected characters, which the
   * tokenizer gives the kind `UnknownMarker`, become skipped text. It
   * throws where `ParseTokens` throws, and a tree's diagnostics start with
   * those `ParseTokens` reports.
   */
  function ParseText(source: SourceText): (r: TreeOutcome)
    ensures ReadTokensFrom(source, Start(), [], true).Fatal? ==> r == Throws
    ensures r.Parsed? ==>
      ReadTokensFrom(source, Start(), [], true).Ok? &&
      ReadTokensFrom(source, Start(), [], true).value.diagnostics <= r.diagnostics
  {
    TokenLoopFoldsReadTokens(source, Start(), [], [], UnknownMarker);
    ParseWith(source, UnknownMarker)
  }

  /** As written the token loop is `ParseTokens`' own run, so `Parse` runs the parser over that. */
  lemma AsWrittenIsUnfolded(source: SourceText)
    ensures var loop, raw := TokenLoop(source, Start(), [], [], BadToken), ReadTokensFrom(source, Start(), [], true);
      && (loop.Fatal? <==> raw.Fatal?)
      && (loop.Ok? ==> loop.value == raw.value)
      && (raw.Ok? ==> ParserSpec.WellFormedTokens(raw.value.tokens))
  {
    AsWrittenFoldsNothing(source);
    TokenLoopFoldsReadTokens(source, Start(), [], [], BadToken);
    if ReadTokensFrom(source, Start(), [], true).Ok? {
      ReadTokensStopsAtEndOfFile(source, Start(), [], true);
    }
  }

  /** The tokens `Parse` hands to the parser: the tokens of `ParseTokens`, folded. */
  function ParserInput(source: SourceText, folded: SyntaxKind): Result<seq<SyntaxToken>>
    requires folded != EndOfFileMarker
  {
    match TokenLoop(source, Start(), [], [], folded)
    case Fatal(e) => Fatal(e)
    case Ok(run) => Ok(run.tokens)
  }

  /**
   * As written, the folding never fires: the parser gets exactly the
   * tokens `ParseTokens` reads, since none of them is a `BadToken`.
   */
  lemma AsWrittenFoldsNothing(source: SourceText)
    ensures var raw := ReadTokensFrom(source, Start(), [], true);
      && (ParserInput(source, BadToken).Ok? <==> raw.Ok?)
      && (raw.Ok? ==> ParserInput(source, BadToken).value == raw.value.tokens)
  {
    TokenLoopFoldsReadTokens(source, Start(), [], [], BadToken);
    var raw := ReadTokensFrom(source, Start(), [], true);
    if raw.Ok? {
      ReadTokensStopsAtEndOfFile(source, Start(), [], true);
      forall i | 0 <= i < |raw.value.tokens| ensures raw.value.tokens[i].kind != BadToken {
        assert IsLexedKind(raw.value.tokens[i].kind);
      }
      FoldWithoutKindIsIdentity(raw.value.tokens, BadToken);
    }
  }

  /**
   * As intended, no `UnknownMarker` reaches the parser, every other token
   * does, in order, and each unexpected character's text is kept as
   * skipped text of the token after it.
   */
  lemma ParseTextFoldsUnknown(source: SourceText)
    ensures var raw := ReadTokensFrom(source, Start(), [], true);
      && (ParserInput(source, UnknownMarker).Ok? <==> raw.Ok?)
      && (raw.Ok? ==>
            var input := ParserInput(source, UnknownMarker).value;
            && (forall i :: 0 <= i < |input| ==> input[i].kind != UnknownMarker)
            && Kinds(input) == KindsWithout(raw.value.tokens, UnknownMarker)
            && (NoSkippedTrivia(raw.value.tokens) ==>
                  TokenSkippedTexts(input) == TextsOfKind(raw.value.tokens, UnknownMarker)))
  {
    TokenLoopFoldsReadTokens(source, Start(), [], [], UnknownMarker);
    var raw := ReadTokensFrom(source, Start(), [], true);
    if raw.Ok? {
      ReadTokensStopsAtEndOfFile(source, Start(), [], true);
      EmptyThen(FoldAll(raw.value.tokens, [], UnknownMarker));
      FoldFacts(raw.value.tokens);
    }
  }

  /** The folding of a token list that ends in the end-of-file marker. */
  lemma FoldFacts(ts: seq<SyntaxToken>)
    requires |ts| > 0 && ts[|ts| - 1].kind == EndOfFileMarker
    ensures var input := FoldAll(ts, [], UnknownMarker);
      && (forall i :: 0 <= i < |input| ==> input[i].kind != UnknownMarker)
      && Kinds(input) == KindsWithout(ts, UnknownMarker)
      && (NoSkippedTrivia(ts) ==> TokenSkippedTexts(input) == TextsOfKind(ts, UnknownMarker))
  {
    FoldRemovesKind(ts, [], UnknownMarker);
    FoldKeepsOtherKinds(ts, [], UnknownMarker);
    if NoSkippedTrivia(ts) {
      FoldSkippedTexts(ts, [], UnknownMarker);
      EmptyThen(TextsOfKind(ts, UnknownMarker));
      assert Texts([]) == [];
    }
  }

  /**
   * A parsed tree's diagnostics are those `ParseTokens` reports, then
   * the parser's; it fails to parse wherever `ParseTokens` fails.
   */
  lemma ParseTextDiagnostics(source: SourceText)
    ensures ReadTokensFrom(source, Start(), [], true).Fatal? ==> ParseText(source) == Throws
    ensures ParseText(source).Parsed? ==>
      ReadTokensFrom(source, Start(), [], true).Ok? &&
      ReadTokensFrom(source, Start(), [], true).value.diagnostics <= ParseText(source).diagnostics
  {
    var loop := TokenLoop(source, Start(), [], [], UnknownMarker);
    FoldsAlong(source, Start(), [], [], UnknownMarker, loop, ReadTokensFrom(source, Start(), [], true));
    ParseTextIs(source, loop);
    if loop.Ok? {
      ParseRunDiagnostics(source, loop.value);
    }
  }

  /** `ParseText` is the parser over the token loop's tokens, where the loop finishes. */
  lemma ParseTextIs(source: SourceText, loop: Result<TokenRun>)
    requires loop == TokenLoop(source, Start(), [], [], UnknownMarker)
    ensures loop.Fatal? ==> ParseText(source) == Throws
    ensures loop.Ok? ==> ParserSpec.WellFormedTokens(loop.value.tokens) && ParseText(source) == ParseRun(source, loop.value)
  {
    TokenLoopEnds(source, Start(), [], [], UnknownMarker, loop);
  }

  /** A parse keeps the tokenizer's diagnostics at its head. */
  lemma ParseRunDiagnostics(source: SourceText, run: TokenRun)
    requires ParserSpec.WellFormedTokens(run.tokens)
    ensures ParseRun(source, run).Parsed? ==> run.diagnostics <= ParseRun(source, run).diagnostics
  {
  }

  /** Folding gives only tokens of kinds the tokenizer produces when it is given only those. */
  lemma {:induction false} FoldKeepsLexedKinds(raw: seq<SyntaxToken>, bad: seq<SyntaxToken>, folded: SyntaxKind)
    requires forall i :: 0 <= i < |raw| ==> IsLexedKind(raw[i].kind)
    ensures forall i :: 0 <= i < |FoldAll(raw, bad, folded)| ==> IsLexedKind(FoldAll(raw, bad, folded)[i].kind)
    decreases |raw|
  {
    if raw != [] {
      assert forall i :: 0 <= i < |raw[1..]| ==> raw[1..][i] == raw[i + 1];
      if raw[0].kind == folded {
        FoldKeepsLexedKinds(raw[1..], bad + [raw[0]], folded);
      } else {
        FoldKeepsLexedKinds(raw[1..], [], folded);
      }
    }
  }

  /**
   * Keywords are never lexed, so no member can begin with `fun`: a text
   * that parses holds no declaration, and any token other than the
   * end-of-file marker at its start makes the parse throw.
   */
  lemma ParsedTextHasNoMembers(source: SourceText)
    ensures ParseText(source).Parsed? ==> ParseText(source).root.members == []
    ensures var input := ParserInput(source, UnknownMarker);
      input.Ok? && |input.value| > 0 && input.value[0].kind != EndOfFileMarker ==> ParseText(source) == Throws
  {
    var loop := TokenLoop(source, Start(), [], [], UnknownMarker);
    ParseTextIs(source, loop);
    if loop.Ok? {
      ParserInputIsLexed(source);
      LexedRunHasNoMembers(source, loop.value);
    }
  }

  /** The same for `Parse` as written, which hands the parser the tokens `ParseTokens` reads. */
  lemma AsWrittenHasNoMembers(source: SourceText)
    ensures ParseAsWritten(source).Parsed? ==> ParseAsWritten(source).root.members == []
    ensures var raw := ReadTokensFrom(source, Start(), [], true);
      raw.Ok? && raw.value.tokens[0].kind != EndOfFileMarker ==> ParseAsWritten(source) == Throws
  {
    var raw := ReadTokensFrom(source, Start(), [], true);
    if raw.Ok? {
      var run := raw.value;
      AsWrittenIsUnfolded(source);
      assert ParseAsWritten(source) == ParseRun(source, run);
      RawFirstIsLexed(source);
      LexedRunHasNoMembers(source, run);
    }
  }

  /** The first token `ParseTokens` reads has a kind the tokenizer produces. */
  lemma RawFirstIsLexed(source: SourceText)
    requires ReadTokensFrom(source, Start(), [], true).Ok?
    ensures var tokens := ReadTokensFrom(source, Start(), [], true).value.tokens;
      |tokens| > 0 && IsLexedKind(tokens[0].kind)
  {
    ReadTokensStopsAtEndOfFile(source, Start(), [], true);
  }

  /** A run whose first token the tokenizer produced parses to no member: it is the end of the file, or the parse throws. */
  lemma LexedRunHasNoMembers(source: SourceText, run: TokenRun)
    requires ParserSpec.WellFormedTokens(run.tokens) && IsLexedKind(run.tokens[0].kind)
    ensures ParseRun(source, run).Parsed? ==> ParseRun(source, run).root.members == []
    ensures run.tokens[0].kind != EndOfFileMarker ==> ParseRun(source, run) == Throws
  {
    var tokens := run.tokens;
    LexedKindIsNoKeyword(tokens[0].kind);
    var st := ParserSpec.PState(0, []);
    if tokens[0].kind != EndOfFileMarker {
      assert ParserSpec.Member(source, tokens, st) == ParserSpec.Fails(ParserSpec.InvalidMember);
    }
  }

  /** Every token the parser gets from `ParseText`'s fold has a kind the tokenizer produces. */
  lemma ParserInputIsLexed(source: SourceText)
    requires TokenLoop(source, Start(), [], [], UnknownMarker).Ok?
    ensures var tokens := TokenLoop(source, Start(), [], [], UnknownMarker).value.tokens;
      |tokens| > 0 && forall i :: 0 <= i < |tokens| ==> IsLexedKind(tokens[i].kind)
  {
    var loop := TokenLoop(source, Start(), [], [], UnknownMarker);
    var raw := ReadTokensFrom(source, Start(), [], true);
    TokenLoopFoldsReadTokens(source, Start(), [], [], UnknownMarker);
    var folded := FoldAll(raw.value.tokens, [], UnknownMarker);
    assert loop.value.tokens == folded by {
      EmptyThen(folded);
    }
    assert forall i :: 0 <= i < |raw.value.tokens| ==> IsLexedKind(raw.value.tokens[i].kind) by {
      ReadTokensStopsAtEndOfFile(source, Start(), [], true);
    }
    FoldKeepsLexedKinds(raw.value.tokens, [], UnknownMarker);
    TokenLoopEnds(source, Start(), [], [], UnknownMarker, loop);
  }

  // ---------------------------------------------------------------------
  // Parents
  // ---------------------------------------------------------------------

  /** Child indices from the root. */
  type Path = seq<nat>

  /** The node at `path` below `n`, if there is one. */
  function NodeAt(n: SyntaxNode, path: Path): Option<SyntaxNode>
    decreases |path|
  {
    if path == [] then Some(n)
    else if path[0] < |Children(n)| then NodeAt(Children(n)[path[0]], path[1..])
    else None
  }

  /** The entries `FindParents` adds for the nodes below `n`, `n` being at `at`. */
  function ParentEntries(n: SyntaxNode, at: Path): map<Path, Path>
    decreases Size(n), 1, 0
  {
    ChildEntries(n, at, |Children(n)|)
  }

  /** The entries for the first `k` children of `n` and the nodes below them. */
  function ChildEntries(n: SyntaxNode, at: Path, k: nat): map<Path, Path>
    requires k <= |Children(n)|
    decreases Size(n), 0, k
  {
    if k == 0 then map[]
    else
      ChildrenAreSmaller(n);
      ChildEntries(n, at, k - 1)[at + [k - 1] := at] + ParentEntries(Children(n)[k - 1], at + [k - 1])
  }

  /** `q` is `at` followed by a path to a node below `n`. */
  predicate Below(n: SyntaxNode, at: Path, q: Path) {
    |at| < |q| && q[..|at|] == at && NodeAt(n, q[|at|..]).Some?
  }

  /**
   * The parent map holds exactly the nodes below the root, except the
   * root itself, and maps each to the path one step shorter.
   */
  lemma {:induction false} ParentEntriesAre(n: SyntaxNode, at: Path, q: Path)
    ensures q in ParentEntries(n, at) <==> Below(n, at, q)
    ensures q in ParentEntries(n, at) ==> ParentEntries(n, at)[q] == q[..|q| - 1]
    decreases Size(n), 1
  {
    ChildEntriesAre(n, at, |Children(n)|, q);
  }

  lemma {:induction false} ChildEntriesAre(n: SyntaxNode, at: Path, k: nat, q: Path)
    requires k <= |Children(n)|
    ensures q in ChildEntries(n, at, k) <==> Below(n, at, q) && q[|at|] < k
    ensures q in ChildEntries(n, at, k) ==> ChildEntries(n, at, k)[q] == q[..|q| - 1]
    decreases Size(n), 0, k
  {
    if k > 0 {
      ChildrenAreSmaller(n);
      var c := at + [k - 1];
      var child := Children(n)[k - 1];
      ChildEntriesAre(n, at, k - 1, q);
      ParentEntriesAre(child, c, q);
      BelowChild(n, at, k - 1, q);
      JoinEntries(ChildEntries(n, at, k - 1), ParentEntries(child, c), at, c, q,
                  Below(n, at, q) && q[|at|] < k - 1, Below(child, c, q));
    }
  }

  /** The entries of one more child, given those of the children before it and those below it. */
  lemma JoinEntries(before: map<Path, Path>, below: map<Path, Path>, at: Path, c: Path, q: Path, a: bool, b: bool)
    requires |c| == |at| + 1 && c[..|at|] == at
    requires q in before <==> a
    requires q in below <==> b
    requires q in before ==> |q| > 0 && before[q] == q[..|q| - 1]
    requires q in below ==> |q| > 0 && below[q] == q[..|q| - 1]
    ensures q in before[c := at] + below <==> a || q == c || b
    ensures q in before[c := at] + below ==> |q| > 0 && (before[c := at] + below)[q] == q[..|q| - 1]
  {
    MapStep(before, c, at, below, q);
  }

  /** Membership in, and lookup of, a map updated at one key and then joined with another. */
  lemma MapStep<K, V>(m: map<K, V>, c: K, v: V, e: map<K, V>, q: K)
    ensures q in m[c := v] + e <==> q in m || q == c || q in e
    ensures q in e ==> (m[c := v] + e)[q] == e[q]
    ensures q !in e && q == c ==> (m[c := v] + e)[q] == v
    ensures q !in e && q != c && q in m ==> (m[c := v] + e)[q] == m[q]
  {
  }

  /** The paths below child `i` of `n` are that child's own path and the paths below it. */
  lemma BelowChild(n: SyntaxNode, at: Path, i: nat, q: Path)
    requires i < |Children(n)|
    ensures (Below(n, at, q) && q[|at|] == i) <==> (q == at + [i] || Below(Children(n)[i], at + [i], q))
  {
    var c := at + [i];
    var child := Children(n)[i];
    if |at| < |q| && q[..|at|] == at && q[|at|] == i {
      assert q[|at|..][0] == i;
      assert q[|at|..][1..] == q[|c|..];
      assert NodeAt(n, q[|at|..]) == NodeAt(child, q[|c|..]);
      assert q[..|c|] == c;
      if |q| == |c| {
        assert q == c;
      }
    }
    if q == c {
      assert q[..|at|] == at && q[|at|..] == [i] && [i][1..] == [];
    }
    if Below(child, c, q) {
      assert q[..|c|][..|at|] == q[..|at|];
      assert q[|at|..][1..] == q[|c|..];
      assert q[|at|] == q[..|c|][|at|] == c[|at|] == i;
      assert q[|at|..][0] == i;
      assert NodeAt(n, q[|at|..]) == NodeAt(child, q[|c|..]);
    }
  }

  /** The node one step below a path's node. */
  lemma {:induction false} NodeAtSnoc(n: SyntaxNode, p: Path, i: nat)
    ensures NodeAt(n, p + [i]) ==
      (match NodeAt(n, p)
       case None => None
       case Some(m) => if i < |Children(m)| then Some(Children(m)[i]) else None)
    decreases |p|
  {
    if p == [] {
      assert [] + [i] == [i];
      assert [i][1..] == [];
    } else {
      assert (p + [i])[1..] == p[1..] + [i];
      if p[0] < |Children(n)| {
        NodeAtSnoc(Children(n)[p[0]], p[1..], i);
      }
    }
  }

  /** The exception `GetParent` throws for a node that is not in the tree. */
  const NotAMember := "This node is not a member of this tree"

  /** `GetParent` as written: the root is not a key of the map, so asking for its parent throws. */
  function ParentAsWritten(root: Option<CompilationUnitSyntax>, p: Path): (r: Result<Option<Path>>)
    ensures root.Some? && p == [] ==> r == Fatal(NotAMember)
    ensures r.Ok? && r.value.Some? ==> p != [] && r.value.value == p[..|p| - 1]
  {
    if root.None? then Ok(None)
    else
      ParentEntriesAre(UnitNode(root.value), [], p);
      var m := ParentEntries(UnitNode(root.value), []);
      if p in m then Ok(Some(m[p])) else Fatal(NotAMember)
  }

  /** `GetParent` as its documentation describes it: the root has no parent. */
  function Parent(root: Option<CompilationUnitSyntax>, p: Path): (r: Result<Option<Path>>)
    ensures p == [] ==> r == Ok(None)
    ensures p != [] ==> r == ParentAsWritten(root, p)
  {
    if root.None? || p == [] then Ok(None)
    else
      var m := ParentEntries(UnitNode(root.value), []);
      if p in m then Ok(Some(m[p])) else Fatal(NotAMember)
  }

  /**
   * `Parent` answers for exactly the nodes of the tree: none for the root,
   * and for any other node the node it is a child of, at the index the
   * path ends in.
   */
  lemma ParentIsParent(u: CompilationUnitSyntax, p: Path)
    ensures Parent(Some(u), p).Ok? <==> NodeAt(UnitNode(u), p).Some?
    ensures Parent(Some(u), p) == Ok(None) <==> p == []
    ensures Parent(Some(u), p).Ok? && p != [] ==>
      var q := Parent(Some(u), p).value.value;
      && p == q + [p[|p| - 1]]
      && NodeAt(UnitNode(u), q).Some?
      && p[|p| - 1] < |Children(NodeAt(UnitNode(u), q).value)|
      && Children(NodeAt(UnitNode(u), q).value)[p[|p| - 1]] == NodeAt(UnitNode(u), p).value
  {
    if p != [] {
      ParentEntriesAre(UnitNode(u), [], p);
      assert p[0..] == p;
      var q := p[..|p| - 1];
      assert p == q + [p[|p| - 1]];
      NodeAtSnoc(UnitNode(u), q, p[|p| - 1]);
    }
  }

  /** As written, asking for the root's parent throws instead of giving none. */
  lemma RootParentAsWrittenThrows(u: CompilationUnitSyntax)
    ensures ParentAsWritten(Some(u), []) == Fatal(NotAMember)
    ensures Parent(Some(u), []) == Ok(None)
  {
    ParentEntriesAre(UnitNode(u), [], []);
  }

  /** Elsewhere the two agree. */
  lemma ParentAsWrittenAgrees(root: Option<CompilationUnitSyntax>, p: Path)
    requires root.None? || p != []
    ensures ParentAsWritten(root, p) == Parent(root, p)
  {
  }

  /** One turn of the loop of `FindParents`: the child's entry, then the entries below it. */
  lemma FindParentsStep(m: map<Path, Path>, node: SyntaxNode, at: Path, i: nat)
    requires i < |Children(node)|
    ensures (m + ChildEntries(node, at, i))[at + [i] := at] + ParentEntries(Children(node)[i], at + [i])
         == m + ChildEntries(node, at, i + 1)
  {
    var before := ChildEntries(node, at, i);
    UpdateIsUnion(before, at + [i], at);
    UnionAssoc(m, before, map[at + [i] := at]);
    UpdateIsUnion(m + before, at + [i], at);
    UnionAssoc(m, before[at + [i] := at], ParentEntries(Children(node)[i], at + [i]));
  }

  lemma UpdateIsUnion<K, V>(m: map<K, V>, k: K, v: V)
    ensures m[k := v] == m + map[k := v]
  {
  }

  lemma UnionAssoc<K, V>(a: map<K, V>, b: map<K, V>, c: map<K, V>)
    ensures (a + b) + c == a + (b + c)
  {
  }

  // ---------------------------------------------------------------------
  // The tree object
  // ---------------------------------------------------------------------

  class SyntaxTree {
    const text: SourceText
    var root: Option<CompilationUnitSyntax>
    var diagnostics: seq<Diagnostic>
    var parents: Option<map<Path, Path>>

    /** A parent map, once built, is the one of the root. */
    ghost predicate Valid()
      reads this
    {
      parents.Some? ==> root.Some? && parents.value == ParentEntries(UnitNode(root.value), [])
    }

    /** A tree with no root and no diagnostics. */
    constructor (text: SourceText)
      ensures Valid() && this.text == text
      ensures root == None && diagnostics == [] && parents == None
    {
      this.text := text;
      root := None;
      diagnostics := [];
      parents := None;
    }

    method Initialize(root: CompilationUnitSyntax, diagnostics: seq<Diagnostic>)
      requires parents == None
      modifies this
      ensures Valid()
      ensures this.root == Some(root) && this.diagnostics == diagnostics && parents == None
    {
      this.root := Some(root);
      this.diagnostics := diagnostics;
    }

    /**
     * `Parse`: the tokens of the text, then the parser over them. It
     * returns how the source's `Parse` ends, and on a parse the tree holds
     * the root and the diagnostics of both.
     */
    static method Parse(text: SourceText) returns (tree: SyntaxTree, r: TreeOutcome)
      ensures fresh(tree) && tree.Valid() && tree.text == text
      ensures r == ParseAsWritten(text)
      ensures r.Parsed? ==> tree.root == Some(r.root) && tree.diagnostics == r.diagnostics
    {
      tree := new SyntaxTree(text);
      var tokens, lexed, ok := CollectTokens(text);
      if !ok {
        return tree, Throws;
      }
      TokenLoopEnds(text, Start(), [], [], BadToken, TokenLoop(text, Start(), [], [], BadToken));
      r := ParseCollected(tree, tokens, lexed);
    }

    /**
     * The second half of `Parse`: the parser over the collected tokens,
     * and on a parse the tokenizer's diagnostics, then the parser's, in
     * the tree.
     */
    static method ParseCollected(tree: SyntaxTree, tokens: seq<SyntaxToken>, lexed: seq<Diagnostic>)
      returns (r: TreeOutcome)
      requires tree.Valid() && tree.parents == None && ParserSpec.WellFormedTokens(tokens)
      modifies tree
      ensures tree.Valid()
      ensures r == ParseRun(tree.text, TokenRun(tokens, lexed))
      ensures r.Parsed? ==> tree.root == Some(r.root) && tree.diagnostics == r.diagnostics
      ensures !r.Parsed? ==> tree.root == old(tree.root) && tree.diagnostics == old(tree.diagnostics)
    {
      var parser := new Parser(tree.text, tokens);
      var outcome := parser.Parse();
      match outcome
      case Fails(_) => r := Throws;
      case Diverges => r := Hangs;
      case Done(unit, _) =>
        var all := new DiagnosticBuilder();
        var parsed := parser.diagnostics.ToImmutableArray();
        all.AddRange(lexed);
        EmptyThen(lexed);
        all.AddRange(parsed);
        var ds := all.ToImmutableArray();
        tree.Initialize(unit, ds);
        r := Parsed(unit, ds);
    }

    /**
     * The `do ... while` loop of `Parse`: every token of the text, a run
     * of `BadToken` tokens folded into the leading trivia of the token
     * after it, up to and with the end-of-file marker, and the tokenizer's
     * diagnostics; `ok` is false where the tokenizer throws.
     */
    static method CollectTokens(text: SourceText) returns (tokens: seq<SyntaxToken>, diagnostics: seq<Diagnostic>, ok: bool)
      ensures ok == TokenLoop(text, Start(), [], [], BadToken).Ok?
      ensures ok ==> TokenRun(tokens, diagnostics) == TokenLoop(text, Start(), [], [], BadToken).value
    {
      tokens := [];
      diagnostics := [];
      var bad: seq<SyntaxToken> := [];
      var tokenizer := new Tokenizer(text);
      ghost var target := TokenLoop(text, Start(), [], [], BadToken);
      var done := false;
      while !done
        invariant fresh(tokenizer) && fresh(tokenizer.window) && fresh(tokenizer.diagnostics)
        invariant tokenizer.Valid() && tokenizer.source == text && tokenizer.next == None
        invariant !done ==> TokenLoop(text, tokenizer.State(), tokens, bad, BadToken) == target
        invariant done ==> target == Ok(TokenRun(tokens, tokenizer.State().diags))
        decreases !done, |text.text| - tokenizer.window.start
      {
        ghost var before := tokenizer.State();
        var token, tokenOk := tokenizer.Next();
        TokenLoopStep(text, before, tokens, bad, BadToken, GetNextToken(text, before));
        if !tokenOk {
          return tokens, diagnostics, false;
        }
        GetNextTokenProgress(text, before);
        if token.kind == BadToken {
          bad := bad + [token];
        } else {
          if |bad| > 0 {
            var leading := FoldLeading(token, bad);
            token := token.WithLeadingTrivia(leading);
            bad := [];
          }
          tokens := tokens + [token];
          done := token.kind == EndOfFileMarker;
        }
      }
      diagnostics := tokenizer.diagnostics.ToImmutableArray();
      ok := true;
    }

    /**
     * The loop of `Parse` over the collected tokens: the token's own
     * leading trivia, then for each collected token its leading trivia,
     * its text as skipped text and its trailing trivia.
     */
    static method FoldLeading(token: SyntaxToken, bad: seq<SyntaxToken>) returns (leading: seq<SyntaxTrivia>)
      ensures leading == token.leading + SkippedTrivia(bad)
    {
      leading := token.leading;
      for i := 0 to |bad|
        invariant leading == token.leading + SkippedTrivia(bad[..i])
      {
        var b := bad[i];
        assert bad[..i + 1][..i] == bad[..i];
        ghost var prefix := leading;
        leading := leading + b.leading;
        leading := leading + [SyntaxTrivia(SkippedTextTrivia, b.position, b.text)];
        leading := leading + b.trailing;
        AppendAssoc(prefix, b.leading, [SyntaxTrivia(SkippedTextTrivia, b.position, b.text)]);
        AppendAssoc(prefix, b.leading + [SyntaxTrivia(SkippedTextTrivia, b.position, b.text)], b.trailing);
        AppendAssoc(token.leading, SkippedTrivia(bad[..i]), SkippedPart(b));
      }
      assert bad[..|bad|] == bad;
    }

    /**
     * `ParseTokens`: the tokens of a text up to the end-of-file marker,
     * the marker itself only on request, and the tokenizer's diagnostics;
     * `ok` is false where the tokenizer throws.
     */
    static method ParseTokens(text: string, includeEndOfFile: bool)
      returns (tokens: seq<SyntaxToken>, diagnostics: seq<Diagnostic>, ok: bool)
      ensures ok == ReadTokens(text, includeEndOfFile).Ok?
      ensures ok ==> TokenRun(tokens, diagnostics) == ReadTokens(text, includeEndOfFile).value
    {
      var source := FromText(text);
      var tokenizer := new Tokenizer(source);
      tokens := [];
      diagnostics := [];
      ghost var target := ReadTokens(text, includeEndOfFile);
      while true
        invariant fresh(tokenizer) && fresh(tokenizer.window) && fresh(tokenizer.diagnostics)
        invariant tokenizer.Valid() && tokenizer.source == source && tokenizer.next == None
        invariant ReadTokensFrom(source, tokenizer.State(), tokens, includeEndOfFile) == target
        decreases |text| - tokenizer.window.start
      {
        ghost var before := tokenizer.State();
        var token, tokenOk := tokenizer.Next();
        ReadTokensStep(source, before, tokens, includeEndOfFile, GetNextToken(source, before));
        if !tokenOk {
          return tokens, diagnostics, false;
        }
        GetNextTokenProgress(source, before);
        if includeEndOfFile || token.kind != EndOfFileMarker {
          tokens := tokens + [token];
        }
        if token.kind == EndOfFileMarker {
          break;
        }
      }
      diagnostics := tokenizer.diagnostics.ToImmutableArray();
      ok := true;
    }

    /**
     * `FindParents`: adds every child of `node`, `node` being at `at`,
     * mapped to `at`, each child followed by the nodes below it.
     */
    static method FindParents(m: map<Path, Path>, node: SyntaxNode, at: Path) returns (m': map<Path, Path>)
      ensures m' == m + ParentEntries(node, at)
      decreases Size(node)
    {
      var children := Children(node);
      ChildrenAreSmaller(node);
      m' := m;
      for i := 0 to |children|
        invariant m' == m + ChildEntries(node, at, i)
      {
        m' := m'[at + [i] := at];
        m' := FindParents(m', children[i], at + [i]);
        FindParentsStep(m, node, at, i);
      }
    }

    /**
     * `GetParent`: none without a root; otherwise the parent map, built
     * on the first call and kept, looked up. A path that is not a key of
     * the map throws, the root's own path among them.
     */
    method GetParent(p: Path) returns (r: Result<Option<Path>>)
      requires Valid()
      modifies this
      ensures Valid() && r == ParentAsWritten(root, p)
      ensures root == old(root) && diagnostics == old(diagnostics)
      ensures old(parents).Some? ==> parents == old(parents)
      ensures root.Some? <==> parents.Some?
    {
      if root.None? {
        return Ok(None);
      }
      if parents.None? {
        var m := FindParents(map[], UnitNode(root.value), []);
        assert map[] + ParentEntries(UnitNode(root.value), []) == ParentEntries(UnitNode(root.value), []);
        parents := Some(m);
      }
      if p in parents.value {
        r := Ok(Some(parents.value[p]));
      } else {
        r := Fatal(NotAMember);
      }
    }

    /** `Format`: the dump of the root; `ok` is false with no root, or where a span cannot be derived. */
    method Format() returns (lines: seq<string>, ok: bool)
      ensures ok == (root.Some? && Lines(UnitNode(root.value), 0).Ok?)
      ensures ok ==> lines == Lines(UnitNode(root.value), 0).value
    {
      lines := [];
      if root.None? {
        return [], false;
      }
      var writer := new LineWriter();
      ok := FormatNode(UnitNode(root.value), writer, 0);
      lines := writer.lines;
    }
  }
}
