/**
 * The parser as the source writes it: a cursor `position` over a fixed
 * token array and a diagnostic builder it appends to. Every method is
 * proved to do what the function of the same name in `ParserSpec` says,
 * and to leave the parser in the state that function hands on.
 */
module Parsers {

  import opened Wrappers
  import opened Text
  import opened SyntaxFacts
  import opened Diagnostics
  import opened Syntax
  import opened ParserSpec

  class Parser {
    const source: SourceText
    const tokens: seq<SyntaxToken>
    const diagnostics: DiagnosticBuilder
    var position: nat

    /** The state the reference definition speaks about. */
    function State(): PState
      reads this, diagnostics
    {
      PState(position, diagnostics.items)
    }

    predicate Valid()
      reads this, diagnostics
    {
      ParserSpec.ValidState(tokens, State())
    }

    constructor (source: SourceText, tokens: seq<SyntaxToken>)
      requires ParserSpec.WellFormedTokens(tokens)
      ensures Valid() && this.source == source && this.tokens == tokens
      ensures State() == PState(0, [])
      ensures fresh(diagnostics)
    {
      this.source := source;
      this.tokens := tokens;
      diagnostics := new DiagnosticBuilder();
      position := 0;
    }

    // -------------------------------------------------------------------
    // The token cursor. `Peek`, `Current`, `At`, `AtSequence` and `Ahead`
    // change nothing; the methods use their definitions in `ParserSpec`
    // on the current state.
    // -------------------------------------------------------------------

    method NextToken() returns (t: SyntaxToken)
      requires Valid()
      modifies this
      ensures t == ParserSpec.NextToken(tokens, old(State())).token
      ensures State() == ParserSpec.NextToken(tokens, old(State())).next
    {
      t := ParserSpec.Current(tokens, State());
      position := position + 1;
    }

    method Expect(kind: SyntaxKind) returns (t: SyntaxToken)
      requires Valid()
      modifies this, diagnostics
      ensures t == ParserSpec.Expect(source, tokens, old(State()), kind).token
      ensures State() == ParserSpec.Expect(source, tokens, old(State()), kind).next
    {
      var current := ParserSpec.Current(tokens, State());
      if current.kind == kind {
        t := NextToken();
        return;
      }
      diagnostics.Add(UnexpectedToken, TextLocation(source, current.Span()), [KindArg(current.kind), KindArg(kind)]);
      t := SyntaxToken(kind, current.position, "", None, [], []);
    }

    method Try(kind: SyntaxKind) returns (t: Option<SyntaxToken>)
      requires Valid()
      modifies this
      ensures t == ParserSpec.Try(tokens, old(State()), kind).token
      ensures State() == ParserSpec.Try(tokens, old(State()), kind).next
    {
      if ParserSpec.At(tokens, State(), kind) {
        var current := NextToken();
        return Some(current);
      }
      return None;
    }

    method TryEither(kind1: SyntaxKind, kind2: SyntaxKind) returns (t: Option<SyntaxToken>)
      requires Valid()
      modifies this
      ensures t == ParserSpec.TryEither(tokens, old(State()), kind1, kind2).token
      ensures State() == ParserSpec.TryEither(tokens, old(State()), kind1, kind2).next
    {
      if ParserSpec.AtEither(tokens, State(), kind1, kind2) {
        var current := NextToken();
        return Some(current);
      }
      return None;
    }

    // -------------------------------------------------------------------
    // Productions
    // -------------------------------------------------------------------

    /** `Parse`. */
    method Parse() returns (r: Outcome<CompilationUnitSyntax>)
      requires Valid()
      modifies this, diagnostics
      ensures r == ParserSpec.CompilationUnit(source, tokens, old(State()), [])
      ensures r.Done? ==> State() == r.next
    {
      r := CompilationUnit();
    }

    method CompilationUnit() returns (r: Outcome<CompilationUnitSyntax>)
      requires Valid()
      modifies this, diagnostics
      ensures r == ParserSpec.CompilationUnit(source, tokens, old(State()), [])
      ensures r.Done? ==> State() == r.next
    {
      ghost var target := ParserSpec.CompilationUnit(source, tokens, State(), []);
      var members: seq<FunctionDeclarationSyntax> := [];
      while !ParserSpec.At(tokens, State(), EndOfFileMarker)
        invariant Valid()
        invariant ParserSpec.CompilationUnit(source, tokens, State(), members) == target
        decreases |tokens| - position
      {
        var member := Member();
        if !member.Done? {
          return Abandon(member);
        }
        members := members + [member.value];
      }
      return Done(CompilationUnitSyntax(members), State());
    }

    method Member() returns (r: Outcome<FunctionDeclarationSyntax>)
      requires Valid()
      modifies this, diagnostics
      ensures r == ParserSpec.Member(source, tokens, old(State()))
      ensures r.Done? ==> Valid() && State() == r.next && position > old(position)
    {
      if ParserSpec.At(tokens, State(), FunKeyword) {
        r := FunctionDeclaration();
        return;
      }
      var current := ParserSpec.Current(tokens, State());
      diagnostics.Add(ExpectedMember, TextLocation(source, current.Span()), [KindArg(current.kind)]);
      return Fails(InvalidMember);
    }

    method FunctionDeclaration() returns (r: Outcome<FunctionDeclarationSyntax>)
      requires Valid()
      modifies this, diagnostics
      ensures r == ParserSpec.FunctionDeclaration(source, tokens, old(State()))
      ensures r.Done? ==> Valid() && State() == r.next
    {
      var header := FunctionHeader();
      r := FunctionBody(header);
    }

    /** The first four `Expect`s of `FunctionDeclaration`. */
    method FunctionHeader() returns (h: Header)
      requires Valid()
      modifies this, diagnostics
      ensures h == ParserSpec.FunctionHeader(source, tokens, old(State()))
      ensures Valid() && State() == h.next
    {
      var fun := Expect(FunKeyword);
      var identifier := Expect(IdentifierToken);
      var openParen := Expect(LeftParenthesisToken);
      var closeParen := Expect(RightParenthesisToken);
      return Header(fun, identifier, openParen, closeParen, State());
    }

    /** The block of `FunctionDeclaration` and the two `Expect`s after it. */
    method FunctionBody(h: Header) returns (r: Outcome<FunctionDeclarationSyntax>)
      requires Valid() && State() == h.next
      modifies this, diagnostics
      ensures r == ParserSpec.FunctionBody(source, tokens, h)
      ensures r.Done? ==> Valid() && State() == r.next
    {
      var body := BlockStatement(FunKeyword);
      if !body.Done? {
        return Abandon(body);
      }
      var end := Expect(EndKeyword);
      var endFun := Expect(FunKeyword);
      return Done(FunctionDeclarationSyntax(h.funKeyword, h.identifier, h.openParenthesis, h.closeParenthesis,
                                            body.value, end, endFun), State());
    }

    /**
     * `BlockStatement`; the keyword argument is unused, as in the source.
     * Where a statement consumes nothing the source would loop for ever;
     * this method stops there and says so.
     */
    method BlockStatement(blockTypeKeyword: SyntaxKind) returns (r: Outcome<BlockSyntax>)
      requires Valid()
      modifies this, diagnostics
      ensures r == ParserSpec.BlockStatement(source, tokens, old(State()), [])
      ensures r.Done? ==> Valid() && State() == r.next
    {
      ghost var target := ParserSpec.BlockStatement(source, tokens, State(), []);
      var statements: seq<StatementSyntax> := [];
      while !ParserSpec.At(tokens, State(), EndKeyword)
        invariant Valid()
        invariant ParserSpec.BlockStatement(source, tokens, State(), statements) == target
        decreases |tokens| - position
      {
        var before := position;
        var statement := Statement();
        if !statement.Done? {
          return Abandon<StatementSyntax, BlockSyntax>(statement);
        }
        if position == before {
          return Outcome<BlockSyntax>.Diverges;
        }
        statements := statements + [statement.value];
      }
      return Done(BlockStatementSyntax(statements), State());
    }

    method Statement() returns (r: Outcome<StatementSyntax>)
      requires Valid()
      modifies this, diagnostics
      ensures r == ParserSpec.Statement(source, tokens, old(State()))
      ensures r.Done? ==> Valid() && State() == r.next && position >= old(position)
    {
      var expression := Expression();
      if !expression.Done? {
        return Abandon(expression);
      }
      var semicolon := Expect(SemicolonToken);
      return Done(ExpressionStatementSyntax(expression.value), State());
    }

    method Expression() returns (r: Outcome<ExpressionSyntax>)
      requires Valid()
      modifies this, diagnostics
      ensures r == ParserSpec.Expression(source, tokens, old(State()))
      ensures r.Done? ==> Valid() && State() == r.next && position >= old(position)
      decreases |tokens| - position, 6
    {
      r := BinaryExpression(0, false);
    }

    method BinaryExpression(parentPrecedence: nat, inComparison: bool) returns (r: Outcome<ExpressionSyntax>)
      requires Valid()
      modifies this, diagnostics
      ensures r == ParserSpec.BinaryExpression(source, tokens, old(State()), parentPrecedence, inComparison)
      ensures r.Done? ==> Valid() && State() == r.next && position >= old(position)
      decreases |tokens| - position, 5
    {
      var left := LeftOperand(parentPrecedence);
      if !left.Done? {
        return Abandon(left);
      }
      r := BinaryLoop(left.value, parentPrecedence, inComparison);
    }

    /** The left operand of `BinaryExpression`: a prefixed operand, or a primary expression. */
    method LeftOperand(parentPrecedence: nat) returns (r: Outcome<ExpressionSyntax>)
      requires Valid()
      modifies this, diagnostics
      ensures r == ParserSpec.LeftOperand(source, tokens, old(State()), parentPrecedence)
      ensures r.Done? ==> Valid() && State() == r.next && position >= old(position)
      decreases |tokens| - position, 4
    {
      var unaryPrecedence := UnaryPrecedence(ParserSpec.Current(tokens, State()).kind);
      if unaryPrecedence != 0 && unaryPrecedence >= parentPrecedence {
        var operatorToken := NextToken();
        var operand := BinaryExpression(unaryPrecedence, false);
        if !operand.Done? {
          return Abandon(operand);
        }
        r := Done(UnaryExpressionSyntax(operatorToken, operand.value), State());
      } else {
        r := PrimaryExpression();
      }
    }

    /** The `while (true)` loop of `BinaryExpression`, over the left operand built so far. */
    method BinaryLoop(left0: ExpressionSyntax, parentPrecedence: nat, inComparison: bool)
      returns (r: Outcome<ExpressionSyntax>)
      requires Valid()
      modifies this, diagnostics
      ensures r == ParserSpec.BinaryLoop(source, tokens, old(State()), left0, parentPrecedence, inComparison)
      ensures r.Done? ==> Valid() && State() == r.next && position >= old(position)
      decreases |tokens| - position, 1
    {
      var left := left0;
      ghost var target := ParserSpec.BinaryLoop(source, tokens, State(), left, parentPrecedence, inComparison);
      while true
        invariant Valid() && position >= old(position)
        invariant ParserSpec.BinaryLoop(source, tokens, State(), left, parentPrecedence, inComparison) == target
        decreases |tokens| - position
      {
        CheckChain(inComparison);
        var precedence := BinaryPrecedence(ParserSpec.Current(tokens, State()).kind);
        if precedence == 0 || precedence <= parentPrecedence {
          break;
        }
        var operatorToken := NextToken();
        var right := BinaryExpression(precedence, IsComparisonOperator(operatorToken.kind));
        if !right.Done? {
          return Abandon(right);
        }
        left := BinaryExpressionSyntax(left, operatorToken, right.value);
      }
      return Done(left, State());
    }

    /** The chained-comparison check of the loop above. */
    method CheckChain(inComparison: bool)
      requires Valid()
      modifies diagnostics
      ensures State() == ParserSpec.CheckChain(source, tokens, old(State()), inComparison)
    {
      var current := ParserSpec.Current(tokens, State());
      if IsComparisonOperator(current.kind) && inComparison {
        diagnostics.Add(ComparisonsCannotBeChained, TextLocation(source, current.Span()), []);
      }
    }

    method PrimaryExpression() returns (r: Outcome<ExpressionSyntax>)
      requires Valid()
      modifies this, diagnostics
      ensures r == ParserSpec.PrimaryExpression(source, tokens, old(State()))
      ensures r.Done? ==> Valid() && State() == r.next && position >= old(position)
      decreases |tokens| - position, 3
    {
      var literalToken := TryEither(NumberToken, StringToken);
      if literalToken.Some? {
        if literalToken.value.value.None? {
          return Fails(NullValue);
        }
        return Done(LiteralExpressionSyntax(literalToken.value, literalToken.value.value.value), State());
      }
      if ParserSpec.AtSequence(tokens, State(), IdentifierToken, LeftParenthesisToken) {
        r := CallExpression();
        return;
      }
      var identifier := Expect(IdentifierToken);
      return Done(NameExpressionSyntax(identifier), State());
    }

    /** The call branch of `PrimaryExpression`. */
    method CallExpression() returns (r: Outcome<ExpressionSyntax>)
      requires Valid() && ParserSpec.AtSequence(tokens, State(), IdentifierToken, LeftParenthesisToken)
      modifies this, diagnostics
      ensures r == ParserSpec.CallExpression(source, tokens, old(State()))
      ensures r.Done? ==> Valid() && State() == r.next && position >= old(position)
      decreases |tokens| - position, 2
    {
      var identifier := NextToken();
      var lParen := NextToken();
      var arguments := ArgumentList();
      if !arguments.Done? {
        return Abandon(arguments);
      }
      var rParen := Expect(RightParenthesisToken);
      return Done(CallExpressionSyntax(identifier, lParen, arguments.value, rParen), State());
    }

    method ArgumentList() returns (r: Outcome<seq<ArgumentItem>>)
      requires Valid()
      modifies this, diagnostics
      ensures r == ParserSpec.ArgumentList(source, tokens, old(State()), [])
      ensures r.Done? ==> Valid() && State() == r.next && position >= old(position)
      decreases |tokens| - position, 7
    {
      ghost var target := ParserSpec.ArgumentList(source, tokens, State(), []);
      var nodes: seq<ArgumentItem> := [];
      // The source's `continueParsing` flag: a missing comma ends the list at once.
      while !ParserSpec.At(tokens, State(), RightParenthesisToken) && !ParserSpec.At(tokens, State(), EndOfFileMarker)
        invariant Valid() && position >= old(position)
        invariant ParserSpec.ArgumentList(source, tokens, State(), nodes) == target
        decreases |tokens| - position
      {
        var expression := Expression();
        if !expression.Done? {
          return Abandon(expression);
        }
        var comma := Try(CommaToken);
        if comma.None? {
          return Done(nodes + [Argument(expression.value)], State());
        }
        nodes := nodes + [Argument(expression.value), Separator(comma.value)];
      }
      return Done(nodes, State());
    }
  }
}
