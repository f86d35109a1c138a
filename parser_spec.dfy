/**
 * The parser as functions of its state: the position in the token array
 * and the diagnostics reported so far. Every production returns what it
 * built and the state after it, the exception that ends the process, or,
 * for a block that can make no progress, the fact that the source loops
 * for ever.
 */
module ParserSpec {

  import opened Wrappers
  import opened Text
  import opened SyntaxFacts
  import opened Diagnostics
  import opened Syntax

  /** The token array `SyntaxTree.Parse` hands over: never empty, the end-of-file marker last. */
  predicate WellFormedTokens(tokens: seq<SyntaxToken>) {
    |tokens| > 0 && tokens[|tokens| - 1].kind == EndOfFileMarker
  }

  datatype PState = PState(position: nat, diags: seq<Diagnostic>)

  /** A state a production may start from: the position is inside the token array. */
  predicate ValidState(tokens: seq<SyntaxToken>, st: PState) {
    WellFormedTokens(tokens) && st.position < |tokens|
  }

  /** What a production did. */
  datatype Outcome<T> = Done(value: T, next: PState) | Fails(reason: string) | Diverges

  /** A production that did not finish, passed on unchanged. */
  function Abandon<T, U>(r: Outcome<T>): (q: Outcome<U>)
    requires !r.Done?
    ensures q.Fails? <==> r.Fails?
    ensures q.Fails? ==> q.reason == r.reason
  {
    if r.Fails? then Fails(r.reason) else Diverges
  }

  /**
   * The state after a production: the position never moves back and stays
   * in the array, and diagnostics are only ever appended.
   */
  predicate Follows(tokens: seq<SyntaxToken>, st: PState, next: PState) {
    && st.position <= next.position < |tokens|
    && st.diags <= next.diags
  }

  lemma FollowsTransitive(tokens: seq<SyntaxToken>, a: PState, b: PState, c: PState)
    requires Follows(tokens, a, b) && Follows(tokens, b, c)
    ensures Follows(tokens, a, c)
  {
  }

  // ---------------------------------------------------------------------
  // The token cursor
  // ---------------------------------------------------------------------

  /** `Peek(offset)`: the token `offset` places on, or the last token past the end. */
  function Peek(tokens: seq<SyntaxToken>, st: PState, offset: nat): (t: SyntaxToken)
    requires |tokens| > 0
    ensures t in tokens
    ensures st.position + offset < |tokens| ==> t == tokens[st.position + offset]
    ensures WellFormedTokens(tokens) && st.position + offset >= |tokens| - 1 ==> t.kind == EndOfFileMarker
  {
    var index := st.position + offset;
    if index >= |tokens| then tokens[|tokens| - 1] else tokens[index]
  }

  /**
   * `Current`: the token at the position, or the last token once the
   * position has run past the end; at or past the last token of a
   * well-formed array, the end-of-file marker.
   */
  function Current(tokens: seq<SyntaxToken>, st: PState): (t: SyntaxToken)
    requires |tokens| > 0
    ensures t in tokens
    ensures st.position < |tokens| ==> t == tokens[st.position]
    ensures st.position >= |tokens| ==> t == tokens[|tokens| - 1]
    ensures WellFormedTokens(tokens) && st.position >= |tokens| - 1 ==> t.kind == EndOfFileMarker
  {
    Peek(tokens, st, 0)
  }

  /** Only the last token of a well-formed array is the end-of-file marker where the cursor can stand. */
  lemma NotAtEnd(tokens: seq<SyntaxToken>, st: PState)
    requires ValidState(tokens, st) && Current(tokens, st).kind != EndOfFileMarker
    ensures st.position + 1 < |tokens|
  {
  }

  /** A token the cursor handed out, and the state after it. */
  datatype Taken = Taken(token: SyntaxToken, next: PState)

  /** `NextToken`: the current token, the position one further. */
  function NextToken(tokens: seq<SyntaxToken>, st: PState): (r: Taken)
    requires |tokens| > 0
    ensures r.token == Current(tokens, st)
    ensures r.next.position == st.position + 1 && r.next.diags == st.diags
  {
    Taken(Current(tokens, st), st.(position := st.position + 1))
  }

  /** A token's location in the text. */
  function TokenLocation(source: SourceText, t: SyntaxToken): (l: TextLocation)
    ensures l.source == source && l.span == t.Span()
  {
    TextLocation(source, t.Span())
  }

  /**
   * `Expect(kind)`: the current token when it has that kind; otherwise an
   * `UnexpectedToken` (found, expected) diagnostic at the current token and
   * a zero-width token of the expected kind in its place, with nothing
   * consumed.
   */
  function Expect(source: SourceText, tokens: seq<SyntaxToken>, st: PState, kind: SyntaxKind): (r: Taken)
    requires |tokens| > 0
    ensures r.token.kind == kind
    ensures Current(tokens, st).kind == kind ==> r == NextToken(tokens, st)
    ensures ValidState(tokens, st) && kind != EndOfFileMarker ==> Follows(tokens, st, r.next)
  {
    var cur := Current(tokens, st);
    if cur.kind == kind then NextToken(tokens, st)
    else Taken(SyntaxToken(kind, cur.position, "", None, [], []), st.(diags := st.diags + [Unexpected(source, cur, kind)]))
  }

  /** The diagnostic `Expect` reports: the token found, and the kind it expected. */
  function Unexpected(source: SourceText, found: SyntaxToken, expected: SyntaxKind): (d: Diagnostic)
    ensures d.descriptor == UnexpectedToken && d.location == TokenLocation(source, found)
    ensures d.args == [KindArg(found.kind), KindArg(expected)]
  {
    Diagnostic(UnexpectedToken, TokenLocation(source, found), [KindArg(found.kind), KindArg(expected)])
  }

  /**
   * On a mismatch `Expect` consumes nothing, reports one diagnostic and
   * hands back a zero-width token of the expected kind with no value and
   * no trivia at the current token's position.
   */
  lemma ExpectMismatch(source: SourceText, tokens: seq<SyntaxToken>, st: PState, kind: SyntaxKind)
    requires |tokens| > 0 && Current(tokens, st).kind != kind
    ensures
      var r := Expect(source, tokens, st, kind);
      var cur := Current(tokens, st);
      && r.next.position == st.position
      && r.next.diags == st.diags + [Unexpected(source, cur, kind)]
      && r.token.Span() == TextSpan(cur.position, 0) && r.token.value == None
      && r.token.leading == [] && r.token.trailing == []
  {
  }

  /** `At(kind)`: the token under the cursor has that kind; past the end only the end-of-file marker is there. */
  function At(tokens: seq<SyntaxToken>, st: PState, kind: SyntaxKind): (r: bool)
    requires |tokens| > 0
    ensures st.position < |tokens| ==> (r <==> tokens[st.position].kind == kind)
    ensures WellFormedTokens(tokens) && st.position >= |tokens| - 1 ==> (r <==> kind == EndOfFileMarker)
  {
    Current(tokens, st).kind == kind
  }

  /** `At(kind1, kind2)`: the token under the cursor has one of the two kinds. */
  function AtEither(tokens: seq<SyntaxToken>, st: PState, kind1: SyntaxKind, kind2: SyntaxKind): (r: bool)
    requires |tokens| > 0
    ensures r <==> Current(tokens, st).kind in {kind1, kind2}
    ensures st.position < |tokens| ==> (r <==> tokens[st.position].kind in {kind1, kind2})
  {
    At(tokens, st, kind1) || At(tokens, st, kind2)
  }

  /**
   * `AtSequence(kind1, kind2)`: the token under the cursor has `kind1` and
   * the one after it `kind2`; at the last token of a well-formed array the
   * one after it is the end-of-file marker again.
   */
  function AtSequence(tokens: seq<SyntaxToken>, st: PState, kind1: SyntaxKind, kind2: SyntaxKind): (r: bool)
    requires |tokens| > 0
    ensures st.position + 1 < |tokens| ==>
      (r <==> tokens[st.position].kind == kind1 && tokens[st.position + 1].kind == kind2)
    ensures WellFormedTokens(tokens) && st.position >= |tokens| - 1 ==>
      (r <==> kind1 == EndOfFileMarker && kind2 == EndOfFileMarker)
  {
    At(tokens, st, kind1) && Ahead(tokens, st, 1, kind2)
  }

  predicate Ahead(tokens: seq<SyntaxToken>, st: PState, offset: nat, kind: SyntaxKind)
    requires |tokens| > 0
  {
    Peek(tokens, st, offset).kind == kind
  }

  /** What `Try` gave: a token, or none, and the state after it. */
  datatype Tried = Tried(token: Option<SyntaxToken>, next: PState)

  /** `Try(kind)`: the current token, consumed, exactly when the cursor is at that kind. */
  function Try(tokens: seq<SyntaxToken>, st: PState, kind: SyntaxKind): (r: Tried)
    requires |tokens| > 0
    ensures r.token.Some? <==> At(tokens, st, kind)
    ensures r.token.Some? ==> Taken(r.token.value, r.next) == NextToken(tokens, st)
    ensures r.token.None? ==> r.next == st
  {
    if At(tokens, st, kind) then
      var t := NextToken(tokens, st);
      Tried(Some(t.token), t.next)
    else Tried(None, st)
  }

  /** `Try(kind1, kind2)`. */
  function TryEither(tokens: seq<SyntaxToken>, st: PState, kind1: SyntaxKind, kind2: SyntaxKind): (r: Tried)
    requires |tokens| > 0
    ensures r.token.Some? <==> AtEither(tokens, st, kind1, kind2)
    ensures r.token.Some? ==> Taken(r.token.value, r.next) == NextToken(tokens, st)
    ensures r.token.None? ==> r.next == st
  {
    if AtEither(tokens, st, kind1, kind2) then
      var t := NextToken(tokens, st);
      Tried(Some(t.token), t.next)
    else Tried(None, st)
  }

  // ---------------------------------------------------------------------
  // Expressions
  // ---------------------------------------------------------------------

  /** `Expression`. */
  function Expression(source: SourceText, tokens: seq<SyntaxToken>, st: PState): (r: Outcome<ExpressionSyntax>)
    requires ValidState(tokens, st)
    ensures !r.Diverges? && (r.Done? ==> Follows(tokens, st, r.next))
    decreases |tokens| - st.position, 6
  {
    BinaryExpression(source, tokens, st, 0, false)
  }

  /**
   * `BinaryExpression(parentPrecedence, inComparison)`: the left operand,
   * then the binary-operator loop over it.
   */
  function BinaryExpression(source: SourceText, tokens: seq<SyntaxToken>, st: PState, parent: nat, inComparison: bool)
    : (r: Outcome<ExpressionSyntax>)
    requires ValidState(tokens, st)
    ensures !r.Diverges? && (r.Done? ==> Follows(tokens, st, r.next))
    decreases |tokens| - st.position, 5
  {
    var left := LeftOperand(source, tokens, st, parent);
    if !left.Done? then Abandon(left)
    else BinaryLoop(source, tokens, left.next, left.value, parent, inComparison)
  }

  /**
   * The left operand of `BinaryExpression`: a prefix operator binding at
   * least as tightly as the parent, applied to what follows it parsed at
   * the operator's own precedence, or else a primary expression.
   */
  function LeftOperand(source: SourceText, tokens: seq<SyntaxToken>, st: PState, parent: nat)
    : (r: Outcome<ExpressionSyntax>)
    requires ValidState(tokens, st)
    ensures !r.Diverges? && (r.Done? ==> Follows(tokens, st, r.next))
    decreases |tokens| - st.position, 4
  {
    var u := UnaryPrecedence(Current(tokens, st).kind);
    if u != 0 && u >= parent then
      var op := NextToken(tokens, st);
      var operand := BinaryExpression(source, tokens, op.next, u, false);
      if !operand.Done? then Abandon(operand)
      else Done(UnaryExpressionSyntax(op.token, operand.value), operand.next)
    else PrimaryExpression(source, tokens, st)
  }

  /** The diagnostic for a comparison operator met inside the right operand of another. */
  function ChainDiagnostic(source: SourceText, t: SyntaxToken): Diagnostic {
    Diagnostic(ComparisonsCannotBeChained, TokenLocation(source, t), [])
  }

  /** The check at the top of that loop: a comparison operator met while `inComparison` is reported, in place. */
  function CheckChain(source: SourceText, tokens: seq<SyntaxToken>, st: PState, inComparison: bool): (r: PState)
    requires |tokens| > 0
    ensures IsComparisonOperator(Current(tokens, st).kind) && inComparison
            ==> r == st.(diags := st.diags + [ChainDiagnostic(source, Current(tokens, st))])
    ensures !IsComparisonOperator(Current(tokens, st).kind) || !inComparison ==> r == st
  {
    var cur := Current(tokens, st);
    if IsComparisonOperator(cur.kind) && inComparison then st.(diags := st.diags + [ChainDiagnostic(source, cur)])
    else st
  }

  /**
   * The `while (true)` loop of `BinaryExpression`: a comparison operator
   * met while `inComparison` is reported; an operator binding more tightly
   * than the parent is consumed and its right operand parsed at its own
   * precedence; anything else ends the loop.
   */
  function BinaryLoop(source: SourceText, tokens: seq<SyntaxToken>, st: PState, left: ExpressionSyntax,
                      parent: nat, inComparison: bool): (r: Outcome<ExpressionSyntax>)
    requires ValidState(tokens, st)
    ensures !r.Diverges? && (r.Done? ==> Follows(tokens, st, r.next))
    decreases |tokens| - st.position, 1
  {
    var checked := CheckChain(source, tokens, st, inComparison);
    var precedence := BinaryPrecedence(Current(tokens, st).kind);
    if precedence == 0 || precedence <= parent then Done(left, checked)
    else
      var op := NextToken(tokens, checked);
      var right := BinaryExpression(source, tokens, op.next, precedence, IsComparisonOperator(op.token.kind));
      if !right.Done? then Abandon(right)
      else BinaryLoop(source, tokens, right.next, BinaryExpressionSyntax(left, op.token, right.value), parent, inComparison)
  }

  /** What `Require` throws for a literal token without a value. */
  const NullValue := "'literalToken.Value' is null, but was expected to be non-null"

  /**
   * `PrimaryExpression`: a number or string literal, a call when an
   * identifier is followed by `(`, and otherwise a name made by
   * `Expect(IdentifierToken)`.
   */
  function PrimaryExpression(source: SourceText, tokens: seq<SyntaxToken>, st: PState): (r: Outcome<ExpressionSyntax>)
    requires ValidState(tokens, st)
    ensures !r.Diverges? && (r.Done? ==> Follows(tokens, st, r.next))
    decreases |tokens| - st.position, 3
  {
    var literal := TryEither(tokens, st, NumberToken, StringToken);
    if literal.token.Some? then
      var t := literal.token.value;
      if t.value.None? then Fails(NullValue) else Done(LiteralExpressionSyntax(t, t.value.value), literal.next)
    else if AtSequence(tokens, st, IdentifierToken, LeftParenthesisToken) then CallExpression(source, tokens, st)
    else
      var identifier := Expect(source, tokens, st, IdentifierToken);
      Done(NameExpressionSyntax(identifier.token), identifier.next)
  }

  /** The call branch of `PrimaryExpression`: the name, `(`, the arguments and the expected `)`. */
  function CallExpression(source: SourceText, tokens: seq<SyntaxToken>, st: PState): (r: Outcome<ExpressionSyntax>)
    requires ValidState(tokens, st) && AtSequence(tokens, st, IdentifierToken, LeftParenthesisToken)
    ensures !r.Diverges? && (r.Done? ==> Follows(tokens, st, r.next))
    decreases |tokens| - st.position, 2
  {
    var identifier := NextToken(tokens, st);
    var open := NextToken(tokens, identifier.next);
    var arguments := ArgumentList(source, tokens, open.next, []);
    if !arguments.Done? then Abandon(arguments)
    else
      var close := Expect(source, tokens, arguments.next, RightParenthesisToken);
      Done(CallExpressionSyntax(identifier.token, open.token, arguments.value, close.token), close.next)
  }

  /** Arguments and separators alternate, starting with an argument; every separator is a comma. */
  predicate Alternates(items: seq<ArgumentItem>) {
    forall i :: 0 <= i < |items| ==>
      (items[i].Argument? <==> i % 2 == 0) && (items[i].Separator? ==> items[i].comma.kind == CommaToken)
  }

  /**
   * The loop of `ArgumentList` after `items`: it stops at `)` or the end of
   * the file, and after an argument no comma follows.
   */
  function ArgumentList(source: SourceText, tokens: seq<SyntaxToken>, st: PState, items: seq<ArgumentItem>)
    : (r: Outcome<seq<ArgumentItem>>)
    requires ValidState(tokens, st)
    ensures !r.Diverges? && (r.Done? ==> Follows(tokens, st, r.next))
    decreases |tokens| - st.position, 7
  {
    if At(tokens, st, RightParenthesisToken) || At(tokens, st, EndOfFileMarker) then Done(items, st)
    else
      var argument := Expression(source, tokens, st);
      if !argument.Done? then Abandon(argument)
      else
        var comma := Try(tokens, argument.next, CommaToken);
        if comma.token.Some? then
          ArgumentList(source, tokens, comma.next, items + [Argument(argument.value), Separator(comma.token.value)])
        else Done(items + [Argument(argument.value)], comma.next)
  }

  // ---------------------------------------------------------------------
  // Statements and members
  // ---------------------------------------------------------------------

  /** `Statement`: an expression and the expected `;`, which the statement record does not hold. */
  function Statement(source: SourceText, tokens: seq<SyntaxToken>, st: PState): (r: Outcome<StatementSyntax>)
    requires ValidState(tokens, st)
    ensures !r.Diverges? && (r.Done? ==> Follows(tokens, st, r.next))
    ensures r.Done? ==> r.value.ExpressionStatementSyntax?
  {
    var expression := Expression(source, tokens, st);
    if !expression.Done? then Abandon(expression)
    else
      var semicolon := Expect(source, tokens, expression.next, SemicolonToken);
      Done(ExpressionStatementSyntax(expression.value), semicolon.next)
  }

  /**
   * The loop of `BlockStatement` after `statements`, up to `end`. A
   * statement that consumes nothing leaves the cursor where it was, so the
   * source would parse the same statement again for ever.
   */
  function BlockStatement(source: SourceText, tokens: seq<SyntaxToken>, st: PState, statements: seq<StatementSyntax>)
    : (r: Outcome<BlockSyntax>)
    requires ValidState(tokens, st)
    ensures r.Done? ==> Follows(tokens, st, r.next) && At(tokens, r.next, EndKeyword)
    ensures r.Done? ==> statements <= r.value.statements
    decreases |tokens| - st.position
  {
    if At(tokens, st, EndKeyword) then Done(BlockStatementSyntax(statements), st)
    else
      var statement := Statement(source, tokens, st);
      if !statement.Done? then Abandon<StatementSyntax, BlockSyntax>(statement)
      else if statement.next.position == st.position then Outcome<BlockSyntax>.Diverges
      else BlockStatement(source, tokens, statement.next, statements + [statement.value])
  }

  /** The four tokens before a function's body, and the state after them. */
  datatype Header = Header(funKeyword: SyntaxToken, identifier: SyntaxToken,
                           openParenthesis: SyntaxToken, closeParenthesis: SyntaxToken, next: PState)

  /** The first four `Expect`s of `FunctionDeclaration`: `fun`, a name, `(` and `)`. */
  function FunctionHeader(source: SourceText, tokens: seq<SyntaxToken>, st: PState): (r: Header)
    requires ValidState(tokens, st)
    ensures Follows(tokens, st, r.next)
    ensures At(tokens, st, FunKeyword) ==> r.next.position > st.position
    ensures r.funKeyword.kind == FunKeyword && r.identifier.kind == IdentifierToken
    ensures r.openParenthesis.kind == LeftParenthesisToken && r.closeParenthesis.kind == RightParenthesisToken
  {
    var fun := Expect(source, tokens, st, FunKeyword);
    var identifier := Expect(source, tokens, fun.next, IdentifierToken);
    var open := Expect(source, tokens, identifier.next, LeftParenthesisToken);
    var close := Expect(source, tokens, open.next, RightParenthesisToken);
    FollowsTransitive(tokens, st, fun.next, identifier.next);
    FollowsTransitive(tokens, st, identifier.next, open.next);
    FollowsTransitive(tokens, st, open.next, close.next);
    Header(fun.token, identifier.token, open.token, close.token, close.next)
  }

  /** The end of `FunctionDeclaration`: after the body, `end` and `fun` are each `Expect`ed. */
  function FunctionEnd(source: SourceText, tokens: seq<SyntaxToken>, h: Header, body: BlockSyntax, st: PState)
    : (r: Outcome<FunctionDeclarationSyntax>)
    requires ValidState(tokens, st)
    ensures r.Done? && Follows(tokens, st, r.next)
    ensures r.value.endToken.kind == EndKeyword && r.value.endFunKeyword.kind == FunKeyword
  {
    var end := Expect(source, tokens, st, EndKeyword);
    var endFun := Expect(source, tokens, end.next, FunKeyword);
    Done(FunctionDeclarationSyntax(h.funKeyword, h.identifier, h.openParenthesis, h.closeParenthesis,
                                   body, end.token, endFun.token), endFun.next)
  }

  /** `FunctionDeclaration`: `fun`, a name, `(`, `)`, a block, `end`, `fun`, each `Expect`ed. */
  function FunctionDeclaration(source: SourceText, tokens: seq<SyntaxToken>, st: PState)
    : (r: Outcome<FunctionDeclarationSyntax>)
    requires ValidState(tokens, st)
    ensures r.Done? ==> Follows(tokens, st, r.next)
    ensures r.Done? && At(tokens, st, FunKeyword) ==> r.next.position > st.position
  {
    var h := FunctionHeader(source, tokens, st);
    FunctionBody(source, tokens, h)
  }

  /** The rest of `FunctionDeclaration` after its header: the block, then its end. */
  function FunctionBody(source: SourceText, tokens: seq<SyntaxToken>, h: Header): (r: Outcome<FunctionDeclarationSyntax>)
    requires ValidState(tokens, h.next)
    ensures r.Done? ==> Follows(tokens, h.next, r.next)
  {
    var body := BlockStatement(source, tokens, h.next, []);
    if !body.Done? then Abandon(body)
    else FunctionEnd(source, tokens, h, body.value, body.next)
  }

  /** What the source throws for a member that does not start with `fun`. */
  const InvalidMember := "TODO: Recovery from invalid member"

  /**
   * `Member`: a function declaration; anything else reports
   * `ExpectedMember` and then throws, so the diagnostic is never seen.
   */
  function Member(source: SourceText, tokens: seq<SyntaxToken>, st: PState): (r: Outcome<FunctionDeclarationSyntax>)
    requires ValidState(tokens, st)
    ensures r.Done? ==> Follows(tokens, st, r.next) && r.next.position > st.position
    ensures !At(tokens, st, FunKeyword) ==> r == Fails(InvalidMember)
  {
    if At(tokens, st, FunKeyword) then FunctionDeclaration(source, tokens, st)
    else Fails(InvalidMember)
  }

  /** The member loop of `CompilationUnit` after `members`, up to the end of the file. */
  function CompilationUnit(source: SourceText, tokens: seq<SyntaxToken>, st: PState,
                           members: seq<FunctionDeclarationSyntax>): (r: Outcome<CompilationUnitSyntax>)
    requires ValidState(tokens, st)
    ensures r.Done? ==> Follows(tokens, st, r.next) && At(tokens, r.next, EndOfFileMarker)
    ensures r.Done? ==> members <= r.value.members
    decreases |tokens| - st.position
  {
    if At(tokens, st, EndOfFileMarker) then Done(CompilationUnitSyntax(members), st)
    else
      var member := Member(source, tokens, st);
      if !member.Done? then Abandon(member)
      else CompilationUnit(source, tokens, member.next, members + [member.value])
  }

  /** `Parse`: the compilation unit from the first token, with no diagnostics yet. */
  function Parse(source: SourceText, tokens: seq<SyntaxToken>): (r: Outcome<CompilationUnitSyntax>)
    requires WellFormedTokens(tokens)
    ensures r.Done? ==> r.next.position < |tokens| && At(tokens, r.next, EndOfFileMarker)
  {
    CompilationUnit(source, tokens, PState(0, []), [])
  }
}
