/**
 * The immutable syntax tree: trivia, tokens and the node records, the
 * order in which each node yields its children, the span a node derives
 * from its first and last child, and the indented tree dump.
 */
module Syntax {

  import opened Wrappers
  import opened Strings
  import opened Text
  import opened SyntaxFacts
  import opened Writers

  // ---------------------------------------------------------------------
  // Trivia and tokens
  // ---------------------------------------------------------------------

  /** The value a literal token carries: a 64-bit integer or a string. */
  datatype TokenValue = IntValue(i: int) | StringValue(s: string)

  /** Text with no meaning of its own (whitespace, comments, skipped text). */
  datatype SyntaxTrivia = SyntaxTrivia(kind: SyntaxKind, position: int, text: string)
  {
    function Span(): TextSpan { TextSpan(position, |text|) }
  }

  /** The checked trivia constructor: a kind that is not a trivia kind is rejected. */
  function MakeTrivia(kind: SyntaxKind, position: int, text: string): (r: Result<SyntaxTrivia>)
    ensures r.Ok? <==> IsTrivia(kind)
    ensures r.Ok? ==> r.value.kind == kind && r.value.position == position && r.value.text == text
  {
    if IsTrivia(kind) then Ok(SyntaxTrivia(kind, position, text))
    else Fatal("ArgumentOutOfRangeException: not a trivia kind")
  }

  /** A token with its text, its literal value and the trivia around it. */
  datatype SyntaxToken = SyntaxToken(
    kind: SyntaxKind,
    position: int,
    text: string,
    value: Option<TokenValue>,
    leading: seq<SyntaxTrivia>,
    trailing: seq<SyntaxTrivia>)
  {
    function Span(): TextSpan { TextSpan(position, |text|) }

    /** The same token with other leading trivia. */
    function WithLeadingTrivia(newLeading: seq<SyntaxTrivia>): (r: SyntaxToken)
      ensures r.leading == newLeading
      ensures r.kind == kind && r.position == position && r.text == text
      ensures r.value == value && r.trailing == trailing
    {
      SyntaxToken(kind, position, text, value, newLeading, trailing)
    }
  }

  /** The token constructor: a missing text is stored as the empty text. */
  function MakeToken(kind: SyntaxKind, position: int, text: Option<string>, value: Option<TokenValue>,
                     leading: seq<SyntaxTrivia>, trailing: seq<SyntaxTrivia>): (r: SyntaxToken)
    ensures r.kind == kind && r.position == position && r.value == value
    ensures r.leading == leading && r.trailing == trailing
    ensures text.Some? ==> r.text == text.value
    ensures text.None? ==> r.Span() == TextSpan(position, 0)
  {
    SyntaxToken(kind, position, if text.Some? then text.value else "", value, leading, trailing)
  }

  // ---------------------------------------------------------------------
  // Nodes
  // ---------------------------------------------------------------------

  datatype ExpressionSyntax =
    | UnaryExpressionSyntax(operator: SyntaxToken, operand: ExpressionSyntax)
    | BinaryExpressionSyntax(left: ExpressionSyntax, operatorToken: SyntaxToken, right: ExpressionSyntax)
    | LiteralExpressionSyntax(literalToken: SyntaxToken, value: TokenValue)
    | CallExpressionSyntax(identifier: SyntaxToken, openParenthesis: SyntaxToken,
                           arguments: seq<ArgumentItem>, closeParenthesis: SyntaxToken)
    | NameExpressionSyntax(identifierToken: SyntaxToken)

  /** One entry of a comma-separated argument list, in source order. */
  datatype ArgumentItem = Argument(expression: ExpressionSyntax) | Separator(comma: SyntaxToken)

  datatype StatementSyntax =
    | ExpressionStatementSyntax(expression: ExpressionSyntax)
    | BlockStatementSyntax(statements: seq<StatementSyntax>)

  type BlockSyntax = s: StatementSyntax | s.BlockStatementSyntax? witness BlockStatementSyntax([])

  /** `fun name ( ) body end fun`. */
  datatype FunctionDeclarationSyntax = FunctionDeclarationSyntax(
    funKeyword: SyntaxToken,
    identifier: SyntaxToken,
    openParenthesis: SyntaxToken,
    closeParenthesis: SyntaxToken,
    body: BlockSyntax,
    endToken: SyntaxToken,
    endFunKeyword: SyntaxToken)

  datatype CompilationUnitSyntax = CompilationUnitSyntax(members: seq<FunctionDeclarationSyntax>)

  /** Any element of the tree that `GetChildren` can yield. */
  datatype SyntaxNode =
    | TokenNode(token: SyntaxToken)
    | ExpressionNode(expression: ExpressionSyntax)
    | StatementNode(statement: StatementSyntax)
    | MemberNode(member: FunctionDeclarationSyntax)
    | UnitNode(unit: CompilationUnitSyntax)

  /** The arguments alone, without their separators. */
  function Arguments(items: seq<ArgumentItem>): (r: seq<ExpressionSyntax>)
    ensures |r| <= |items|
    ensures forall e :: e in r <==> Argument(e) in items
  {
    if items == [] then []
    else (if items[0].Argument? then [items[0].expression] else []) + Arguments(items[1..])
  }

  function Kind(n: SyntaxNode): SyntaxKind {
    match n
    case TokenNode(t) => t.kind
    case ExpressionNode(e) =>
      (match e
       case UnaryExpressionSyntax(_, _) => UnaryExpression
       case BinaryExpressionSyntax(_, _, _) => BinaryExpression
       case LiteralExpressionSyntax(_, _) => LiteralExpression
       case CallExpressionSyntax(_, _, _, _) => CallExpression
       case NameExpressionSyntax(_) => NameExpression)
    case StatementNode(s) => if s.ExpressionStatementSyntax? then ExpressionStatement else BlockStatement
    case MemberNode(_) => FunctionDeclaration
    case UnitNode(_) => CompilationUnit
  }

  function ItemNode(item: ArgumentItem): SyntaxNode {
    match item
    case Argument(e) => ExpressionNode(e)
    case Separator(c) => TokenNode(c)
  }

  function ItemNodes(items: seq<ArgumentItem>): (r: seq<SyntaxNode>)
    ensures |r| == |items| && forall i :: 0 <= i < |items| ==> r[i] == ItemNode(items[i])
  {
    seq(|items|, i requires 0 <= i < |items| => ItemNode(items[i]))
  }

  function StatementNodes(ss: seq<StatementSyntax>): (r: seq<SyntaxNode>)
    ensures |r| == |ss| && forall i :: 0 <= i < |ss| ==> r[i] == StatementNode(ss[i])
  {
    seq(|ss|, i requires 0 <= i < |ss| => StatementNode(ss[i]))
  }

  function MemberNodes(ms: seq<FunctionDeclarationSyntax>): (r: seq<SyntaxNode>)
    ensures |r| == |ms| && forall i :: 0 <= i < |ms| ==> r[i] == MemberNode(ms[i])
  {
    seq(|ms|, i requires 0 <= i < |ms| => MemberNode(ms[i]))
  }

  /** `GetChildren`: the immediate children, in source order. */
  function Children(n: SyntaxNode): (r: seq<SyntaxNode>)
    ensures n.TokenNode? ==> r == []
    ensures r == [] ==> n.TokenNode? || n.UnitNode? || (n.StatementNode? && n.statement.BlockStatementSyntax?)
    ensures n.MemberNode? ==> |r| == 7 && r[4] == StatementNode(n.member.body)
  {
    match n
    case TokenNode(_) => []
    case ExpressionNode(e) =>
      (match e
       case UnaryExpressionSyntax(op, x) => [TokenNode(op), ExpressionNode(x)]
       case BinaryExpressionSyntax(l, op, r) => [ExpressionNode(l), TokenNode(op), ExpressionNode(r)]
       case LiteralExpressionSyntax(t, _) => [TokenNode(t)]
       case CallExpressionSyntax(id, open, items, close) =>
         [TokenNode(id), TokenNode(open)] + ItemNodes(items) + [TokenNode(close)]
       case NameExpressionSyntax(id) => [TokenNode(id)])
    case StatementNode(s) =>
      (match s
       case ExpressionStatementSyntax(e) => [ExpressionNode(e)]
       case BlockStatementSyntax(ss) => StatementNodes(ss))
    case MemberNode(f) =>
      [TokenNode(f.funKeyword), TokenNode(f.identifier), TokenNode(f.openParenthesis),
       TokenNode(f.closeParenthesis), StatementNode(f.body), TokenNode(f.endToken),
       TokenNode(f.endFunKeyword)]
    case UnitNode(u) => MemberNodes(u.members)
  }

  // ---------------------------------------------------------------------
  // A size measure: every child is smaller than its parent
  // ---------------------------------------------------------------------

  function ExprSize(e: ExpressionSyntax): nat {
    match e
    case UnaryExpressionSyntax(_, x) => 2 + ExprSize(x)
    case BinaryExpressionSyntax(l, _, r) => 2 + ExprSize(l) + ExprSize(r)
    case LiteralExpressionSyntax(_, _) => 2
    case CallExpressionSyntax(_, _, items, _) => 4 + ItemsSize(items)
    case NameExpressionSyntax(_) => 2
  }

  function ItemSize(item: ArgumentItem): nat {
    match item
    case Argument(e) => ExprSize(e)
    case Separator(_) => 1
  }

  function ItemsSize(items: seq<ArgumentItem>): nat {
    if items == [] then 0 else ItemSize(items[0]) + ItemsSize(items[1..])
  }

  function StmtSize(s: StatementSyntax): nat {
    match s
    case ExpressionStatementSyntax(e) => 1 + ExprSize(e)
    case BlockStatementSyntax(ss) => 1 + StmtsSize(ss)
  }

  function StmtsSize(ss: seq<StatementSyntax>): nat {
    if ss == [] then 0 else StmtSize(ss[0]) + StmtsSize(ss[1..])
  }

  function MembersSize(ms: seq<FunctionDeclarationSyntax>): nat {
    if ms == [] then 0 else 8 + StmtSize(ms[0].body) + MembersSize(ms[1..])
  }

  function Size(n: SyntaxNode): nat {
    match n
    case TokenNode(_) => 1
    case ExpressionNode(e) => ExprSize(e)
    case StatementNode(s) => StmtSize(s)
    case MemberNode(f) => 8 + StmtSize(f.body)
    case UnitNode(u) => 1 + MembersSize(u.members)
  }

  lemma {:induction false} ItemSizeBound(items: seq<ArgumentItem>, i: nat)
    requires i < |items|
    ensures Size(ItemNode(items[i])) <= ItemsSize(items)
  {
    if i > 0 {
      assert items[1..][i - 1] == items[i];
      ItemSizeBound(items[1..], i - 1);
    }
  }

  lemma {:induction false} StmtSizeBound(ss: seq<StatementSyntax>, i: nat)
    requires i < |ss|
    ensures StmtSize(ss[i]) <= StmtsSize(ss)
  {
    if i > 0 {
      assert ss[1..][i - 1] == ss[i];
      StmtSizeBound(ss[1..], i - 1);
    }
  }

  lemma {:induction false} MemberSizeBound(ms: seq<FunctionDeclarationSyntax>, i: nat)
    requires i < |ms|
    ensures 8 + StmtSize(ms[i].body) <= MembersSize(ms)
  {
    if i > 0 {
      assert ms[1..][i - 1] == ms[i];
      MemberSizeBound(ms[1..], i - 1);
    }
  }

  /** Every child is strictly smaller than the node that yields it. */
  lemma ChildrenAreSmaller(n: SyntaxNode)
    ensures forall i :: 0 <= i < |Children(n)| ==> Size(Children(n)[i]) < Size(n)
  {
    var cs := Children(n);
    forall i | 0 <= i < |cs|
      ensures Size(cs[i]) < Size(n)
    {
      match n
      case ExpressionNode(CallExpressionSyntax(id, open, items, close)) =>
        if 2 <= i < 2 + |items| {
          assert cs[i] == ItemNode(items[i - 2]);
          ItemSizeBound(items, i - 2);
        }
      case StatementNode(BlockStatementSyntax(ss)) =>
        StmtSizeBound(ss, i);
      case UnitNode(u) =>
        MemberSizeBound(u.members, i);
      case _ =>
    }
  }

  // ---------------------------------------------------------------------
  // Spans
  // ---------------------------------------------------------------------

  /**
   * A token's span is its position and text length; any other node spans
   * from its first child's start to its last child's end, and a node with
   * no children has no span (the lookup of the bounding children fails).
   */
  function Span(n: SyntaxNode): (r: Result<TextSpan>)
    ensures n.TokenNode? ==> r == Ok(TextSpan(n.token.position, |n.token.text|))
    ensures !n.TokenNode? && Children(n) == [] ==> r.Fatal?
    ensures !n.TokenNode? && r.Ok? ==>
              (ChildrenAreSmaller(n);
               Children(n) != [] && Span(Children(n)[0]).Ok? && Span(Children(n)[|Children(n)| - 1]).Ok?
               && r.value.start == Span(Children(n)[0]).value.start
               && r.value.End() == Span(Children(n)[|Children(n)| - 1]).value.End())
    decreases Size(n)
  {
    if n.TokenNode? then Ok(n.token.Span())
    else
      var cs := Children(n);
      if cs == [] then Fatal("InvalidOperationException: node has no children")
      else
        ChildrenAreSmaller(n);
        match (Span(cs[0]), Span(cs[|cs| - 1]))
        case (Ok(first), Ok(last)) => Ok(FromBounds(first.start, last.End()))
        case (Fatal(e), _) => Fatal(e)
        case (_, Fatal(e)) => Fatal(e)
  }

  function Location(source: SourceText, n: SyntaxNode): Result<TextLocation> {
    match Span(n)
    case Ok(s) => Ok(TextLocation(source, s))
    case Fatal(e) => Fatal(e)
  }

  /** The first and the last token of an expression: it always has both. */
  function FirstToken(e: ExpressionSyntax): SyntaxToken {
    match e
    case UnaryExpressionSyntax(op, _) => op
    case BinaryExpressionSyntax(l, _, _) => FirstToken(l)
    case LiteralExpressionSyntax(t, _) => t
    case CallExpressionSyntax(id, _, _, _) => id
    case NameExpressionSyntax(id) => id
  }

  function LastToken(e: ExpressionSyntax): SyntaxToken {
    match e
    case UnaryExpressionSyntax(_, x) => LastToken(x)
    case BinaryExpressionSyntax(_, _, r) => LastToken(r)
    case LiteralExpressionSyntax(t, _) => t
    case CallExpressionSyntax(_, _, _, close) => close
    case NameExpressionSyntax(id) => id
  }

  /** Every expression has a span: from its first token's start to its last token's end. */
  lemma {:induction false} ExpressionSpan(e: ExpressionSyntax)
    ensures Span(ExpressionNode(e)) == Ok(FromBounds(FirstToken(e).position, LastToken(e).Span().End()))
    decreases ExprSize(e)
  {
    match e
    case UnaryExpressionSyntax(_, x) => ExpressionSpan(x);
    case BinaryExpressionSyntax(l, _, r) => ExpressionSpan(l); ExpressionSpan(r);
    case LiteralExpressionSyntax(_, _) =>
    case CallExpressionSyntax(id, open, items, close) =>
      var cs := Children(ExpressionNode(e));
      assert cs[0] == TokenNode(id) && cs[|cs| - 1] == TokenNode(close);
    case NameExpressionSyntax(_) =>
  }

  /** A binary expression runs from the start of its left operand to the end of its right one. */
  lemma BinarySpan(l: ExpressionSyntax, op: SyntaxToken, r: ExpressionSyntax)
    ensures Span(ExpressionNode(l)).Ok? && Span(ExpressionNode(r)).Ok?
    ensures Span(ExpressionNode(BinaryExpressionSyntax(l, op, r)))
         == Ok(FromBounds(Span(ExpressionNode(l)).value.start, Span(ExpressionNode(r)).value.End()))
  {
    ExpressionSpan(l);
    ExpressionSpan(r);
  }

  /** An expression statement's span is its expression's. */
  lemma ExpressionStatementSpan(e: ExpressionSyntax)
    ensures Span(StatementNode(ExpressionStatementSyntax(e))) == Span(ExpressionNode(e))
  {
    ExpressionSpan(e);
  }

  /** A function declaration spans from `fun` to the end of the closing `fun`, whatever its body. */
  lemma FunctionDeclarationSpan(f: FunctionDeclarationSyntax)
    ensures Span(MemberNode(f)) == Ok(FromBounds(f.funKeyword.position, f.endFunKeyword.Span().End()))
  {
  }

  /** A unit without members, and a block without statements, have no span. */
  lemma EmptyNodesHaveNoSpan()
    ensures Span(UnitNode(CompilationUnitSyntax([]))).Fatal?
    ensures Span(StatementNode(BlockStatementSyntax([]))).Fatal?
  {
  }

  /** A compilation unit yields exactly its members, in order. */
  lemma UnitChildrenAreMembers(u: CompilationUnitSyntax)
    ensures |Children(UnitNode(u))| == |u.members|
    ensures forall i :: 0 <= i < |u.members| ==> Children(UnitNode(u))[i] == MemberNode(u.members[i])
  {
  }

  /** A call yields its name, "(", its arguments interleaved with their commas, then ")". */
  lemma CallChildren(id: SyntaxToken, open: SyntaxToken, items: seq<ArgumentItem>, close: SyntaxToken)
    ensures var cs := Children(ExpressionNode(CallExpressionSyntax(id, open, items, close)));
      |cs| == |items| + 3 && cs[0] == TokenNode(id) && cs[1] == TokenNode(open)
      && (forall i :: 0 <= i < |items| ==> cs[i + 2] == ItemNode(items[i]))
      && cs[|cs| - 1] == TokenNode(close)
  {
  }

  // ---------------------------------------------------------------------
  // The tree dump: four spaces per level
  // ---------------------------------------------------------------------

  /** `{Kind}[{start} .. {end}] "{text}"` with line breaks and tabs made visible. */
  function TriviaText(tr: SyntaxTrivia): string {
    KindName(tr.kind) + "[" + SpanToString(tr.Span()) + "] \"" + Unescape(tr.text) + "\""
  }

  /** A token's line shows neither its trivia nor its value: it reads like a trivia of the same kind, position and text. */
  function TokenSelf(t: SyntaxToken): (r: string)
    ensures r == TriviaText(SyntaxTrivia(t.kind, t.position, t.text))
  {
    KindName(t.kind) + "[" + SpanToString(t.Span()) + "] \"" + Unescape(t.text) + "\""
  }

  /** One trivia line: the indentation, the "/" or "\\" marker, the trivia itself. */
  function TriviaLine(indent: string, marker: string, tr: SyntaxTrivia): string {
    indent + (marker + TriviaText(tr))
  }

  function TriviaLines(indent: string, marker: string, ts: seq<SyntaxTrivia>): (r: seq<string>)
    ensures |r| == |ts| && forall i :: 0 <= i < |ts| ==> r[i] == TriviaLine(indent, marker, ts[i])
  {
    seq(|ts|, i requires 0 <= i < |ts| => TriviaLine(indent, marker, ts[i]))
  }

  /** A token's lines: "/" before each leading trivia, the token, "\" before each trailing trivia. */
  function TokenLines(t: SyntaxToken, indent: nat): (r: seq<string>)
    ensures |r| == |t.leading| + 1 + |t.trailing|
    ensures r[|t.leading|] == Spaces(4 * indent) + TokenSelf(t)
  {
    TriviaLines(Spaces(4 * indent), "/", t.leading) + [Spaces(4 * indent) + TokenSelf(t)]
      + TriviaLines(Spaces(4 * indent), "\\", t.trailing)
  }

  /** `FormatSelf`: the token line, or `{Kind}[{span}]` for any other node. */
  function NodeSelf(n: SyntaxNode): (r: Result<string>)
    ensures n.TokenNode? ==> r == Ok(TokenSelf(n.token))
    ensures r.Ok? <==> Span(n).Ok?
  {
    if n.TokenNode? then Ok(TokenSelf(n.token))
    else
      match Span(n)
      case Ok(s) => Ok(KindName(Kind(n)) + "[" + SpanToString(s) + "]")
      case Fatal(e) => Fatal(e)
  }

  function PrependLines(p: seq<string>, r: Result<seq<string>>): (q: Result<seq<string>>)
    ensures q.Ok? == r.Ok? && (r.Ok? ==> q.value == p + r.value)
  {
    match r
    case Ok(v) => Ok(p + v)
    case Fatal(e) => Fatal(e)
  }

  lemma PrependLinesTwice(a: seq<string>, b: seq<string>, r: Result<seq<string>>)
    ensures PrependLines(a, PrependLines(b, r)) == PrependLines(a + b, r)
  {
    if r.Ok? { AppendAssoc(a, b, r.value); }
  }

  /** The lines `FormatTo` writes for a node at depth `indent`. */
  function Lines(n: SyntaxNode, indent: nat): (r: Result<seq<string>>)
    ensures NodeSelf(n).Fatal? ==> r.Fatal?
    ensures r.Ok? && !n.TokenNode? ==> |r.value| >= 1 && r.value[0] == Spaces(4 * indent) + NodeSelf(n).value
    ensures r.Ok? && n.TokenNode? ==> r.value == TokenLines(n.token, indent)
    decreases Size(n), 1, 0
  {
    if n.TokenNode? then Ok(TokenLines(n.token, indent))
    else
      match NodeSelf(n)
      case Fatal(e) => Fatal(e)
      case Ok(self) =>
        ChildrenAreSmaller(n);
        PrependLines([Spaces(4 * indent) + self], ChildLines(Children(n), indent + 1, Size(n)))
  }

  /** The lines of a run of siblings, each at depth `indent`, in order. */
  function ChildLines(cs: seq<SyntaxNode>, indent: nat, ghost bound: nat): Result<seq<string>>
    requires forall i :: 0 <= i < |cs| ==> Size(cs[i]) < bound
    decreases bound, 0, |cs|
  {
    if cs == [] then Ok([])
    else
      match Lines(cs[0], indent)
      case Fatal(e) => Fatal(e)
      case Ok(first) => PrependLines(first, ChildLines(cs[1..], indent, bound))
  }

  predicate StartsWith(s: string, prefix: string) {
    |prefix| <= |s| && s[..|prefix|] == prefix
  }

  /** Every line starts with `prefix`. */
  predicate AllStartWith(ls: seq<string>, prefix: string) {
    forall i :: 0 <= i < |ls| ==> StartsWith(ls[i], prefix)
  }

  lemma SpacesPrefix(m: nat, n: nat, rest: string)
    requires m <= n
    ensures StartsWith(Spaces(n) + rest, Spaces(m))
  {
    assert (Spaces(n) + rest)[..m] == Spaces(m);
  }

  lemma AllStartWithAppend(a: seq<string>, b: seq<string>, prefix: string)
    requires AllStartWith(a, prefix) && AllStartWith(b, prefix)
    ensures AllStartWith(a + b, prefix)
  {
    forall i | 0 <= i < |a + b| ensures StartsWith((a + b)[i], prefix) {
      if i < |a| { assert (a + b)[i] == a[i]; } else { assert (a + b)[i] == b[i - |a|]; }
    }
  }

  lemma TriviaLinesAreIndented(indent: nat, marker: string, ts: seq<SyntaxTrivia>)
    ensures AllStartWith(TriviaLines(Spaces(indent), marker, ts), Spaces(indent))
  {
    var ls := TriviaLines(Spaces(indent), marker, ts);
    forall i | 0 <= i < |ls| ensures StartsWith(ls[i], Spaces(indent)) {
      SpacesPrefix(indent, indent, marker + TriviaText(ts[i]));
    }
  }

  lemma TokenLinesAreIndented(t: SyntaxToken, indent: nat)
    ensures AllStartWith(TokenLines(t, indent), Spaces(4 * indent))
  {
    var sp := Spaces(4 * indent);
    TriviaLinesAreIndented(4 * indent, "/", t.leading);
    TriviaLinesAreIndented(4 * indent, "\\", t.trailing);
    SpacesPrefix(4 * indent, 4 * indent, TokenSelf(t));
    AllStartWithAppend(TriviaLines(sp, "/", t.leading), [sp + TokenSelf(t)], sp);
    AllStartWithAppend(TriviaLines(sp, "/", t.leading) + [sp + TokenSelf(t)], TriviaLines(sp, "\\", t.trailing), sp);
  }

  /** Lines indented one level deeper are indented at this level too. */
  lemma DeeperIsIndented(ls: seq<string>, indent: nat)
    requires AllStartWith(ls, Spaces(4 * (indent + 1)))
    ensures AllStartWith(ls, Spaces(4 * indent))
  {
    forall i | 0 <= i < |ls| ensures StartsWith(ls[i], Spaces(4 * indent)) {
      var k := 4 * (indent + 1);
      assert ls[i] == Spaces(k) + ls[i][k..];
      SpacesPrefix(4 * indent, k, ls[i][k..]);
    }
  }

  /** Every line of a dump at depth `indent` starts with 4 * indent spaces. */
  lemma {:induction false} LinesAreIndented(n: SyntaxNode, indent: nat)
    requires Lines(n, indent).Ok?
    ensures AllStartWith(Lines(n, indent).value, Spaces(4 * indent))
    decreases Size(n), 1, 0
  {
    if n.TokenNode? {
      TokenLinesAreIndented(n.token, indent);
    } else {
      ChildrenAreSmaller(n);
      var self := NodeSelf(n).value;
      var rest := ChildLines(Children(n), indent + 1, Size(n)).value;
      ChildLinesAreIndented(Children(n), indent + 1, Size(n));
      DeeperIsIndented(rest, indent);
      SpacesPrefix(4 * indent, 4 * indent, self);
      AllStartWithAppend([Spaces(4 * indent) + self], rest, Spaces(4 * indent));
    }
  }

  lemma {:induction false} ChildLinesAreIndented(cs: seq<SyntaxNode>, indent: nat, bound: nat)
    requires forall i :: 0 <= i < |cs| ==> Size(cs[i]) < bound
    requires ChildLines(cs, indent, bound).Ok?
    ensures AllStartWith(ChildLines(cs, indent, bound).value, Spaces(4 * indent))
    decreases bound, 0, |cs|
  {
    if cs != [] {
      LinesAreIndented(cs[0], indent);
      ChildLinesAreIndented(cs[1..], indent, bound);
      AllStartWithAppend(Lines(cs[0], indent).value, ChildLines(cs[1..], indent, bound).value, Spaces(4 * indent));
    }
  }

  // ---------------------------------------------------------------------
  // FormatTo, writing to a writer
  // ---------------------------------------------------------------------

  method WriteTrivia(indentString: string, marker: string, ts: seq<SyntaxTrivia>, writer: LineWriter)
    modifies writer
    ensures writer.lines == old(writer.lines) + TriviaLines(indentString, marker, ts)
  {
    ghost var before := writer.lines;
    for i := 0 to |ts|
      invariant writer.lines == before + TriviaLines(indentString, marker, ts[..i])
    {
      var line := TriviaLine(indentString, marker, ts[i]);
      AppendAssoc(before, TriviaLines(indentString, marker, ts[..i]), [line]);
      writer.WriteLine(line);
      TriviaLinesSnoc(indentString, marker, ts, i);
    }
    assert ts[..|ts|] == ts;
  }

  lemma TriviaLinesSnoc(indent: string, marker: string, ts: seq<SyntaxTrivia>, i: nat)
    requires i < |ts|
    ensures TriviaLines(indent, marker, ts[..i + 1])
         == TriviaLines(indent, marker, ts[..i]) + [TriviaLine(indent, marker, ts[i])]
  {
    var l := TriviaLines(indent, marker, ts[..i]);
    var r := TriviaLines(indent, marker, ts[..i + 1]);
    var line := TriviaLine(indent, marker, ts[i]);
    forall k | 0 <= k < i
      ensures r[k] == l[k]
    {
      assert ts[..i + 1][k] == ts[..i][k];
    }
    SnocEqual(r, l, line);
  }

  /** `SyntaxToken.FormatTo`: leading trivia lines, the token line, trailing trivia lines. */
  method FormatToken(t: SyntaxToken, writer: LineWriter, indent: nat)
    modifies writer
    ensures writer.lines == old(writer.lines) + TokenLines(t, indent)
  {
    var indentString := Spaces(4 * indent);
    ghost var before := writer.lines;
    ghost var a := TriviaLines(indentString, "/", t.leading);
    ghost var b := TriviaLines(indentString, "\\", t.trailing);
    var self := indentString + TokenSelf(t);
    WriteTrivia(indentString, "/", t.leading, writer);
    writer.WriteLine(self);
    WriteTrivia(indentString, "\\", t.trailing, writer);
    AppendAssoc(before, a, [self]);
    AppendAssoc(before, a + [self], b);
  }

  /**
   * `SyntaxNode.FormatTo`: the node's own line at `4 * indent` spaces, then
   * every child at `indent + 1`. `ok` is false when a span could not be
   * derived, where the source throws.
   */
  method FormatNode(n: SyntaxNode, writer: LineWriter, indent: nat) returns (ok: bool)
    modifies writer
    ensures ok == Lines(n, indent).Ok?
    ensures ok ==> writer.lines == old(writer.lines) + Lines(n, indent).value
    decreases Size(n), 1
  {
    if n.TokenNode? {
      FormatToken(n.token, writer, indent);
      return true;
    }
    var self := NodeSelf(n);
    if self.Fatal? {
      return false;
    }
    var cs := Children(n);
    var line := Spaces(4 * indent) + self.value;
    LinesOfNode(n, indent, line);
    ghost var start := writer.lines;
    writer.WriteLine(line);
    ok := FormatChildren(cs, writer, indent + 1, Size(n));
    if ok {
      AppendAssoc(start, [line], ChildLines(cs, indent + 1, Size(n)).value);
    }
  }


  /** The loop of `FormatTo` over the children, each at depth `indent`. */
  method FormatChildren(cs: seq<SyntaxNode>, writer: LineWriter, indent: nat, ghost bound: nat) returns (ok: bool)
    requires forall j :: 0 <= j < |cs| ==> Size(cs[j]) < bound
    modifies writer
    ensures ok == ChildLines(cs, indent, bound).Ok?
    ensures ok ==> writer.lines == old(writer.lines) + ChildLines(cs, indent, bound).value
    decreases bound, 0
  {
    ghost var all := ChildLines(cs, indent, bound);
    ghost var written: seq<string> := [];
    ChildLinesFrom(cs, 0, indent, bound);
    for i := 0 to |cs|
      invariant writer.lines == old(writer.lines) + written
      invariant all == PrependLines(written, ChildLines(cs[i..], indent, bound))
    {
      var childOk := FormatNode(cs[i], writer, indent);
      ChildLinesStep(cs, i, indent, bound);
      if !childOk {
        return false;
      }
      PrependLinesTwice(written, Lines(cs[i], indent).value, ChildLines(cs[i + 1..], indent, bound));
      AppendAssoc(old(writer.lines), written, Lines(cs[i], indent).value);
      written := written + Lines(cs[i], indent).value;
    }
    ChildLinesFrom(cs, |cs|, indent, bound);
    AppendNothing(written);
    ok := true;
  }

  /** A node's lines are its own line, then its children's; the children are smaller. */
  lemma LinesOfNode(n: SyntaxNode, indent: nat, line: string)
    requires !n.TokenNode? && NodeSelf(n).Ok? && line == Spaces(4 * indent) + NodeSelf(n).value
    ensures forall i :: 0 <= i < |Children(n)| ==> Size(Children(n)[i]) < Size(n)
    ensures Lines(n, indent).Ok? == ChildLines(Children(n), indent + 1, Size(n)).Ok?
    ensures Lines(n, indent).Ok? ==> Lines(n, indent).value == [line] + ChildLines(Children(n), indent + 1, Size(n)).value
  {
    ChildrenAreSmaller(n);
  }

  /** The siblings from `i` on: nothing at the end, everything at 0. */
  lemma ChildLinesFrom(cs: seq<SyntaxNode>, i: nat, indent: nat, bound: nat)
    requires i == 0 || i == |cs|
    requires forall j :: 0 <= j < |cs| ==> Size(cs[j]) < bound
    ensures i == 0 ==> PrependLines([], ChildLines(cs[i..], indent, bound)) == ChildLines(cs, indent, bound)
    ensures i == |cs| ==> ChildLines(cs[i..], indent, bound) == Ok([])
  {
    assert cs[0..] == cs;
    assert cs[|cs|..] == [];
    var r := ChildLines(cs, indent, bound);
    if r.Ok? { assert [] + r.value == r.value; }
  }

  lemma ChildLinesStep(cs: seq<SyntaxNode>, i: nat, indent: nat, bound: nat)
    requires i < |cs|
    requires forall j :: 0 <= j < |cs| ==> Size(cs[j]) < bound
    ensures Lines(cs[i], indent).Fatal? ==> ChildLines(cs[i..], indent, bound).Fatal?
    ensures Lines(cs[i], indent).Ok? ==>
      ChildLines(cs[i..], indent, bound)
      == PrependLines(Lines(cs[i], indent).value, ChildLines(cs[i + 1..], indent, bound))
  {
    assert cs[i..][0] == cs[i];
    assert cs[i..][1..] == cs[i + 1..];
  }
}
