/**
 * What the productions promise: the shapes precedence climbing builds,
 * the chained-comparison diagnostic, the argument list's alternation, and
 * where the parse stops or fails.
 */
module ParserProperties {

  import opened Wrappers
  import opened Text
  import opened SyntaxFacts
  import opened Diagnostics
  import opened Syntax
  import opened ParserSpec

  // ---------------------------------------------------------------------
  // Steps of precedence climbing, at a position `i` with diagnostics `d`
  // ---------------------------------------------------------------------

  /** The trees these steps build. */
  function Name(t: SyntaxToken): ExpressionSyntax { NameExpressionSyntax(t) }

  function Infix(left: ExpressionSyntax, op: SyntaxToken, right: ExpressionSyntax): ExpressionSyntax {
    BinaryExpressionSyntax(left, op, right)
  }

  /** A binary operator never opens a call. */
  lemma OperatorOpensNoCall(k: SyntaxKind)
    requires BinaryPrecedence(k) > 0
    ensures k != LeftParenthesisToken
  {
  }

  /**
   * An identifier not followed by `(` is a primary expression of its own:
   * a name, and the cursor on the token after it.
   */
  lemma PrimaryName(source: SourceText, tokens: seq<SyntaxToken>, i: nat, d: seq<Diagnostic>)
    requires WellFormedTokens(tokens) && i + 1 < |tokens|
    requires tokens[i].kind == IdentifierToken && tokens[i + 1].kind != LeftParenthesisToken
    ensures PrimaryExpression(source, tokens, PState(i, d)) == Done(Name(tokens[i]), PState(i + 1, d))
  {
    assert TryEither(tokens, PState(i, d), NumberToken, StringToken).token.None?;
    assert !AtSequence(tokens, PState(i, d), IdentifierToken, LeftParenthesisToken);
  }

  /** Once the left operand is parsed, the binary-operator loop goes on from it. */
  lemma OperandThenLoop(source: SourceText, tokens: seq<SyntaxToken>, i: nat, d: seq<Diagnostic>, parent: nat,
                        inComparison: bool, left: ExpressionSyntax, next: PState)
    requires WellFormedTokens(tokens) && i < |tokens|
    requires LeftOperand(source, tokens, PState(i, d), parent) == Done(left, next)
    ensures ParserSpec.BinaryExpression(source, tokens, PState(i, d), parent, inComparison)
         == BinaryLoop(source, tokens, next, left, parent, inComparison)
  {
  }

  /** Such a name is the left operand the binary-operator loop starts from. */
  lemma NameOperand(source: SourceText, tokens: seq<SyntaxToken>, i: nat, d: seq<Diagnostic>,
                    parent: nat, inComparison: bool)
    requires WellFormedTokens(tokens) && i + 1 < |tokens|
    requires tokens[i].kind == IdentifierToken && tokens[i + 1].kind != LeftParenthesisToken
    ensures ParserSpec.BinaryExpression(source, tokens, PState(i, d), parent, inComparison)
         == BinaryLoop(source, tokens, PState(i + 1, d), Name(tokens[i]), parent, inComparison)
  {
    PrimaryName(source, tokens, i, d);
    OperandThenLoop(source, tokens, i, d, parent, inComparison, Name(tokens[i]), PState(i + 1, d));
  }

  /**
   * A prefix operator binding at least as tightly as the parent applies to
   * the operand parsed after it at its own precedence.
   */
  lemma UnaryOperand(source: SourceText, tokens: seq<SyntaxToken>, i: nat, d: seq<Diagnostic>, parent: nat,
                     operand: ExpressionSyntax, next: PState)
    requires WellFormedTokens(tokens) && i + 1 < |tokens|
    requires UnaryPrecedence(tokens[i].kind) > 0 && UnaryPrecedence(tokens[i].kind) >= parent
    requires ParserSpec.BinaryExpression(source, tokens, PState(i + 1, d), UnaryPrecedence(tokens[i].kind), false)
             == Done(operand, next)
    ensures LeftOperand(source, tokens, PState(i, d), parent) == Done(UnaryExpressionSyntax(tokens[i], operand), next)
  {
  }

  /**
   * The loop stops at a token that binds no more tightly than the parent,
   * after chained comparisons are looked for at that token.
   */
  lemma LoopStops(source: SourceText, tokens: seq<SyntaxToken>, i: nat, d: seq<Diagnostic>,
                  left: ExpressionSyntax, parent: nat, inComparison: bool)
    requires WellFormedTokens(tokens) && i < |tokens|
    requires BinaryPrecedence(tokens[i].kind) <= parent
    ensures BinaryLoop(source, tokens, PState(i, d), left, parent, inComparison)
         == Done(left, CheckChain(source, tokens, PState(i, d), inComparison))
  {
  }

  /**
   * The loop stops at a token that binds no more tightly than the parent
   * and chains no comparison; nothing is reported.
   */
  lemma LoopStopsQuietly(source: SourceText, tokens: seq<SyntaxToken>, i: nat, d: seq<Diagnostic>,
                         left: ExpressionSyntax, parent: nat, inComparison: bool)
    requires WellFormedTokens(tokens) && i < |tokens|
    requires BinaryPrecedence(tokens[i].kind) <= parent
    requires !IsComparisonOperator(tokens[i].kind) || !inComparison
    ensures BinaryLoop(source, tokens, PState(i, d), left, parent, inComparison) == Done(left, PState(i, d))
  {
  }

  /**
   * The loop consumes an operator that binds more tightly than the parent
   * and chains no comparison; once its right operand is parsed, the loop
   * goes on over the combined left operand.
   */
  lemma LoopStep(source: SourceText, tokens: seq<SyntaxToken>, i: nat, d: seq<Diagnostic>, left: ExpressionSyntax,
                 parent: nat, inComparison: bool, right: ExpressionSyntax, next: PState)
    requires WellFormedTokens(tokens) && i + 1 < |tokens|
    requires BinaryPrecedence(tokens[i].kind) > parent
    requires !IsComparisonOperator(tokens[i].kind) || !inComparison
    requires ParserSpec.BinaryExpression(source, tokens, PState(i + 1, d), BinaryPrecedence(tokens[i].kind),
                                         IsComparisonOperator(tokens[i].kind))
             == Done(right, next)
    ensures BinaryLoop(source, tokens, PState(i, d), left, parent, inComparison)
         == BinaryLoop(source, tokens, next, Infix(left, tokens[i], right), parent, inComparison)
  {
    var st := PState(i, d);
    assert Current(tokens, st) == tokens[i];
    assert CheckChain(source, tokens, st, inComparison) == st;
    assert NextToken(tokens, st) == Taken(tokens[i], PState(i + 1, d));
  }

  /**
   * Inside the right operand of a comparison, a comparison operator is
   * reported where it stands, and nothing is consumed.
   */
  lemma ChainReported(source: SourceText, tokens: seq<SyntaxToken>, i: nat, inComparison: bool)
    requires i < |tokens| && IsComparisonOperator(tokens[i].kind) && inComparison
    ensures CheckChain(source, tokens, PState(i, []), inComparison) == PState(i, [ChainDiagnostic(source, tokens[i])])
  {
  }

  /**
   * An identifier followed by an operator that binds no more tightly than
   * the parent is an operand of its own; the test for chained comparisons
   * still runs at the operator.
   */
  lemma NameStops(source: SourceText, tokens: seq<SyntaxToken>, i: nat, d: seq<Diagnostic>,
                  parent: nat, inComparison: bool)
    requires WellFormedTokens(tokens) && i + 1 < |tokens|
    requires tokens[i].kind == IdentifierToken && tokens[i + 1].kind != LeftParenthesisToken
    requires BinaryPrecedence(tokens[i + 1].kind) <= parent
    ensures ParserSpec.BinaryExpression(source, tokens, PState(i, d), parent, inComparison)
         == Done(Name(tokens[i]), CheckChain(source, tokens, PState(i + 1, d), inComparison))
  {
    NameOperand(source, tokens, i, d, parent, inComparison);
    LoopStops(source, tokens, i + 1, d, Name(tokens[i]), parent, inComparison);
  }

  /**
   * An operator the loop consumes, then an identifier followed by an
   * operator that binds no more tightly than the first and chains no
   * comparison with it: the loop takes the identifier as the right operand
   * and goes on.
   */
  lemma LoopTakesName(source: SourceText, tokens: seq<SyntaxToken>, i: nat, d: seq<Diagnostic>,
                      left: ExpressionSyntax, parent: nat, inComparison: bool)
    requires WellFormedTokens(tokens) && i + 2 < |tokens|
    requires BinaryPrecedence(tokens[i].kind) > parent
    requires !IsComparisonOperator(tokens[i].kind) || !inComparison
    requires tokens[i + 1].kind == IdentifierToken && tokens[i + 2].kind != LeftParenthesisToken
    requires BinaryPrecedence(tokens[i + 2].kind) <= BinaryPrecedence(tokens[i].kind)
    requires !IsComparisonOperator(tokens[i + 2].kind) || !IsComparisonOperator(tokens[i].kind)
    ensures BinaryLoop(source, tokens, PState(i, d), left, parent, inComparison)
         == BinaryLoop(source, tokens, PState(i + 2, d), Infix(left, tokens[i], Name(tokens[i + 1])), parent, inComparison)
  {
    var p, c := BinaryPrecedence(tokens[i].kind), IsComparisonOperator(tokens[i].kind);
    NameOperand(source, tokens, i + 1, d, p, c);
    LoopStopsQuietly(source, tokens, i + 2, d, Name(tokens[i + 1]), p, c);
    LoopStep(source, tokens, i, d, left, parent, inComparison, Name(tokens[i + 1]), PState(i + 2, d));
  }

  /** The end-of-file marker is no operator and opens no call. */
  lemma EndOfFileIsNoOperator(k: SyntaxKind)
    requires k == EndOfFileMarker
    ensures BinaryPrecedence(k) == 0 && !IsComparisonOperator(k) && k != LeftParenthesisToken
  {
  }

  /**
   * An operator the loop consumes, an identifier, then the end of the
   * file: the loop combines the three and stops there.
   */
  lemma LoopTakesLastName(source: SourceText, tokens: seq<SyntaxToken>, i: nat, d: seq<Diagnostic>,
                          left: ExpressionSyntax, parent: nat, inComparison: bool)
    requires WellFormedTokens(tokens) && i + 2 < |tokens|
    requires BinaryPrecedence(tokens[i].kind) > parent
    requires !IsComparisonOperator(tokens[i].kind) || !inComparison
    requires tokens[i + 1].kind == IdentifierToken && tokens[i + 2].kind == EndOfFileMarker
    ensures BinaryLoop(source, tokens, PState(i, d), left, parent, inComparison)
         == Done(Infix(left, tokens[i], Name(tokens[i + 1])), PState(i + 2, d))
  {
    EndOfFileIsNoOperator(tokens[i + 2].kind);
    LoopTakesName(source, tokens, i, d, left, parent, inComparison);
    LoopStopsQuietly(source, tokens, i + 2, d, Infix(left, tokens[i], Name(tokens[i + 1])), parent, inComparison);
  }

  /**
   * An operator the top-level loop consumes, whose right operand ends at
   * the end of the file.
   */
  lemma LoopTakesLast(source: SourceText, tokens: seq<SyntaxToken>, i: nat, d: seq<Diagnostic>,
                      left: ExpressionSyntax, right: ExpressionSyntax, j: nat, e: seq<Diagnostic>)
    requires WellFormedTokens(tokens) && i + 1 < |tokens| && j < |tokens|
    requires BinaryPrecedence(tokens[i].kind) > 0
    requires ParserSpec.BinaryExpression(source, tokens, PState(i + 1, d), BinaryPrecedence(tokens[i].kind),
                                         IsComparisonOperator(tokens[i].kind))
             == Done(right, PState(j, e))
    requires tokens[j].kind == EndOfFileMarker
    ensures BinaryLoop(source, tokens, PState(i, d), left, 0, false) == Done(Infix(left, tokens[i], right), PState(j, e))
  {
    LoopStep(source, tokens, i, d, left, 0, false, right, PState(j, e));
    LoopStopsQuietly(source, tokens, j, e, Infix(left, tokens[i], right), 0, false);
  }

  // ---------------------------------------------------------------------
  // The shapes of `a op1 b op2 c` and `u a op b`
  // ---------------------------------------------------------------------

  /**
   * `a op1 b op2 c` where `op1` binds at least as tightly as `op2`, the two
   * not both comparisons: the tree is `(a op1 b) op2 c`, nothing is
   * reported and the cursor stops at the end of the file.
   */
  lemma BinaryLeftFirst(source: SourceText, tokens: seq<SyntaxToken>)
    requires |tokens| == 6 && tokens[5].kind == EndOfFileMarker
    requires tokens[0].kind == IdentifierToken && tokens[2].kind == IdentifierToken && tokens[4].kind == IdentifierToken
    requires BinaryPrecedence(tokens[1].kind) > 0 && BinaryPrecedence(tokens[3].kind) > 0
    requires BinaryPrecedence(tokens[1].kind) >= BinaryPrecedence(tokens[3].kind)
    requires !IsComparisonOperator(tokens[3].kind) || !IsComparisonOperator(tokens[1].kind)
    ensures Expression(source, tokens, PState(0, []))
         == Done(Infix(Infix(Name(tokens[0]), tokens[1], Name(tokens[2])), tokens[3], Name(tokens[4])), PState(5, []))
  {
    OperatorOpensNoCall(tokens[1].kind);
    OperatorOpensNoCall(tokens[3].kind);
    NameOperand(source, tokens, 0, [], 0, false);
    LoopTakesName(source, tokens, 1, [], Name(tokens[0]), 0, false);
    LoopTakesLastName(source, tokens, 3, [], Infix(Name(tokens[0]), tokens[1], Name(tokens[2])), 0, false);
  }

  /**
   * `a op1 b op2 c` where `op2` binds more tightly than `op1`: the tree is
   * `a op1 (b op2 c)`, nothing is reported and the cursor stops at the end
   * of the file.
   */
  lemma BinaryRightFirst(source: SourceText, tokens: seq<SyntaxToken>)
    requires |tokens| == 6 && tokens[5].kind == EndOfFileMarker
    requires tokens[0].kind == IdentifierToken && tokens[2].kind == IdentifierToken && tokens[4].kind == IdentifierToken
    requires BinaryPrecedence(tokens[1].kind) > 0
    requires BinaryPrecedence(tokens[1].kind) < BinaryPrecedence(tokens[3].kind)
    ensures Expression(source, tokens, PState(0, []))
         == Done(Infix(Name(tokens[0]), tokens[1], Infix(Name(tokens[2]), tokens[3], Name(tokens[4]))), PState(5, []))
  {
    var right := Infix(Name(tokens[2]), tokens[3], Name(tokens[4]));
    TighterRightOperand(source, tokens);
    OperatorOpensNoCall(tokens[1].kind);
    NameOperand(source, tokens, 0, [], 0, false);
    LoopTakesLast(source, tokens, 1, [], Name(tokens[0]), right, 5, []);
  }

  /** The right operand of `a op1 b op2 c` when `op2` binds more tightly: `b op2 c`, up to the end of the file. */
  lemma TighterRightOperand(source: SourceText, tokens: seq<SyntaxToken>)
    requires |tokens| == 6 && tokens[5].kind == EndOfFileMarker
    requires tokens[2].kind == IdentifierToken && tokens[4].kind == IdentifierToken
    requires BinaryPrecedence(tokens[1].kind) > 0
    requires BinaryPrecedence(tokens[1].kind) < BinaryPrecedence(tokens[3].kind)
    ensures ParserSpec.BinaryExpression(source, tokens, PState(2, []), BinaryPrecedence(tokens[1].kind),
                                        IsComparisonOperator(tokens[1].kind))
         == Done(Infix(Name(tokens[2]), tokens[3], Name(tokens[4])), PState(5, []))
  {
    var p1, c1 := BinaryPrecedence(tokens[1].kind), IsComparisonOperator(tokens[1].kind);
    NotBothComparisons(tokens[1].kind, tokens[3].kind);
    OperatorOpensNoCall(tokens[3].kind);
    NameOperand(source, tokens, 2, [], p1, c1);
    LoopTakesLastName(source, tokens, 3, [], Name(tokens[2]), p1, c1);
  }

  /**
   * `a C1 b C2 c` with two comparisons: exactly one
   * `ComparisonsCannotBeChained`, at `C2`, and still `(a C1 b) C2 c`.
   */
  lemma ChainedComparisons(source: SourceText, tokens: seq<SyntaxToken>)
    requires |tokens| == 6 && tokens[5].kind == EndOfFileMarker
    requires tokens[0].kind == IdentifierToken && tokens[2].kind == IdentifierToken && tokens[4].kind == IdentifierToken
    requires IsComparisonOperator(tokens[1].kind) && IsComparisonOperator(tokens[3].kind)
    ensures Expression(source, tokens, PState(0, []))
         == Done(Infix(Infix(Name(tokens[0]), tokens[1], Name(tokens[2])), tokens[3], Name(tokens[4])),
                 PState(5, [ChainDiagnostic(source, tokens[3])]))
  {
    var p1, c1 := BinaryPrecedence(tokens[1].kind), IsComparisonOperator(tokens[1].kind);
    var reported := [ChainDiagnostic(source, tokens[3])];
    ComparisonsShareOneLevel(tokens[1].kind);
    ComparisonsShareOneLevel(tokens[3].kind);
    OperatorOpensNoCall(tokens[1].kind);
    OperatorOpensNoCall(tokens[3].kind);
    NameOperand(source, tokens, 0, [], 0, false);
    NameStops(source, tokens, 2, [], p1, c1);
    ChainReported(source, tokens, 3, c1);
    LoopStep(source, tokens, 1, [], Name(tokens[0]), 0, false, Name(tokens[2]), PState(3, reported));
    LoopTakesLastName(source, tokens, 3, reported, Infix(Name(tokens[0]), tokens[1], Name(tokens[2])), 0, false);
  }

  /**
   * `u a op b`: a prefix operator binds more tightly than every infix
   * one, so the tree is always `(u a) op b`.
   */
  lemma UnaryPrecedenceShape(source: SourceText, tokens: seq<SyntaxToken>)
    requires |tokens| == 5 && tokens[4].kind == EndOfFileMarker
    requires UnaryPrecedence(tokens[0].kind) > 0 && BinaryPrecedence(tokens[2].kind) > 0
    requires tokens[1].kind == IdentifierToken && tokens[3].kind == IdentifierToken
    ensures Expression(source, tokens, PState(0, []))
         == Done(Infix(UnaryExpressionSyntax(tokens[0], Name(tokens[1])), tokens[2], Name(tokens[3])), PState(4, []))
  {
    var pu := UnaryPrecedence(tokens[0].kind);
    UnaryBindsTighterThanBinary(tokens[0].kind, tokens[2].kind);
    OperatorOpensNoCall(tokens[2].kind);
    NameOperand(source, tokens, 1, [], pu, false);
    LoopStopsQuietly(source, tokens, 2, [], Name(tokens[1]), pu, false);
    UnaryOperand(source, tokens, 0, [], 0, Name(tokens[1]), PState(2, []));
    OperandThenLoop(source, tokens, 0, [], 0, false, UnaryExpressionSyntax(tokens[0], Name(tokens[1])), PState(2, []));
    LoopTakesLastName(source, tokens, 2, [], UnaryExpressionSyntax(tokens[0], Name(tokens[1])), 0, false);
  }

  // ---------------------------------------------------------------------
  // Argument lists, blocks and members
  // ---------------------------------------------------------------------

  /**
   * The argument list only ever appends an argument, or an argument and
   * its comma, so a list that alternated properly still does.
   */
  lemma {:induction false} ArgumentListAlternates(source: SourceText, tokens: seq<SyntaxToken>, st: PState,
                                                  items: seq<ArgumentItem>)
    requires ValidState(tokens, st) && Alternates(items) && |items| % 2 == 0
    ensures
      var r := ArgumentList(source, tokens, st, items);
      r.Done? ==> Alternates(r.value) && items <= r.value
    decreases |tokens| - st.position
  {
    if !(At(tokens, st, RightParenthesisToken) || At(tokens, st, EndOfFileMarker)) {
      var argument := Expression(source, tokens, st);
      if argument.Done? {
        var comma := Try(tokens, argument.next, CommaToken);
        if comma.token.Some? {
          AlternatesWithPair(items, argument.value, comma.token.value);
          ArgumentListAlternates(source, tokens, comma.next, items + [Argument(argument.value), Separator(comma.token.value)]);
        } else {
          AlternatesWithLast(items, argument.value);
        }
      }
    }
  }

  /** An argument and its comma keep the list alternating. */
  lemma AlternatesWithPair(items: seq<ArgumentItem>, argument: ExpressionSyntax, comma: SyntaxToken)
    requires Alternates(items) && |items| % 2 == 0 && comma.kind == CommaToken
    ensures var more := items + [Argument(argument), Separator(comma)];
      Alternates(more) && |more| % 2 == 0 && items <= more
  {
    var more := items + [Argument(argument), Separator(comma)];
    forall i | 0 <= i < |more|
      ensures (more[i].Argument? <==> i % 2 == 0) && (more[i].Separator? ==> more[i].comma.kind == CommaToken)
    {
      if i >= |items| {
        assert i == |items| || i == |items| + 1;
      }
    }
  }

  /** A last argument with no comma after it keeps the list alternating. */
  lemma AlternatesWithLast(items: seq<ArgumentItem>, argument: ExpressionSyntax)
    requires Alternates(items) && |items| % 2 == 0
    ensures var last := items + [Argument(argument)];
      Alternates(last) && items <= last
  {
    var last := items + [Argument(argument)];
    forall i | 0 <= i < |last|
      ensures (last[i].Argument? <==> i % 2 == 0) && (last[i].Separator? ==> last[i].comma.kind == CommaToken)
    {
    }
  }

  /**
   * At the end of the file a primary expression is a zero-width name that
   * `Expect` made up, reported as unexpected; nothing is consumed.
   */
  lemma PrimaryAtEnd(source: SourceText, tokens: seq<SyntaxToken>, i: nat, d: seq<Diagnostic>)
    requires WellFormedTokens(tokens) && i < |tokens| && tokens[i].kind == EndOfFileMarker
    ensures PrimaryExpression(source, tokens, PState(i, d))
         == Done(Name(SyntaxToken(IdentifierToken, tokens[i].position, "", None, [], [])),
                 PState(i, d + [Unexpected(source, tokens[i], IdentifierToken)]))
  {
    assert TryEither(tokens, PState(i, d), NumberToken, StringToken).token.None?;
    assert !AtSequence(tokens, PState(i, d), IdentifierToken, LeftParenthesisToken);
  }

  /** The same holds for a whole expression: the loop finds no operator there. */
  lemma ExpressionAtEnd(source: SourceText, tokens: seq<SyntaxToken>, i: nat, d: seq<Diagnostic>)
    requires WellFormedTokens(tokens) && i < |tokens| && tokens[i].kind == EndOfFileMarker
    ensures Expression(source, tokens, PState(i, d))
         == Done(Name(SyntaxToken(IdentifierToken, tokens[i].position, "", None, [], [])),
                 PState(i, d + [Unexpected(source, tokens[i], IdentifierToken)]))
  {
    var name := Name(SyntaxToken(IdentifierToken, tokens[i].position, "", None, [], []));
    var e := d + [Unexpected(source, tokens[i], IdentifierToken)];
    PrimaryAtEnd(source, tokens, i, d);
    OperandThenLoop(source, tokens, i, d, 0, false, name, PState(i, e));
    LoopStopsQuietly(source, tokens, i, e, name, 0, false);
  }

  /**
   * A block that reaches the end of the file before its `end`: the
   * statement there consumes nothing, so the source's loop never ends.
   */
  lemma BlockAtEndOfFileDiverges(source: SourceText, tokens: seq<SyntaxToken>, i: nat, d: seq<Diagnostic>,
                                 statements: seq<StatementSyntax>)
    requires WellFormedTokens(tokens) && i < |tokens| && tokens[i].kind == EndOfFileMarker
    ensures ParserSpec.BlockStatement(source, tokens, PState(i, d), statements) == Diverges
  {
    ExpressionAtEnd(source, tokens, i, d);
  }

  /** A file with no members is an empty compilation unit with no diagnostics. */
  lemma EmptyFile(source: SourceText, tokens: seq<SyntaxToken>)
    requires WellFormedTokens(tokens) && |tokens| == 1
    ensures Parse(source, tokens) == Done(CompilationUnitSyntax([]), PState(0, []))
  {
  }
}
