/**
 * The kinds of syntax elements and the facts the parser and the tokenizer
 * look up about them: operator precedences, fixed texts and the
 * token / trivia / marker / node classification.
 */
module SyntaxFacts {

  import opened Wrappers

  /**
   * Every kind, in declaration order. The keyword, semicolon, function
   * declaration and block statement kinds are the ones the parser refers
   * to; they follow the tokens and the nodes.
   */
  datatype SyntaxKind =
    | UnknownMarker
    | WhitespaceTrivia | SingleLineCommentTrivia | BlockCommentTrivia | NewlineTrivia | SkippedTextTrivia
    | EndOfFileMarker
    | BadToken | NumberToken | StringToken | IdentifierToken
    | AmpersandToken | AmpersandAmpersandToken | AmpersandEqualToken
    | PipeToken | PipePipeToken | PipeEqualToken
    | HatToken | HatEqualToken
    | PlusToken | PlusEqualsToken | MinusToken | MinusEqualsToken
    | StarToken | StarEqualsToken | SlashToken | SlashEqualsToken
    | PercentToken | PercentEqualsToken
    | EqualsToken | EqualsEqualsToken | BangToken | BangEqualsToken
    | GreaterThanToken | GreaterThanEqualToken | LessThanToken | LessThanEqualToken
    | LeftParenthesisToken | RightParenthesisToken | LeftBracketToken | RightBracketToken
    | LeftBraceToken | RightBraceToken | DotToken | CommaToken
    | SemicolonToken | FunKeyword | EndKeyword
    | CompilationUnit | BinaryExpression | UnaryExpression | LiteralExpression | CallExpression
    | NameExpression | GlobalStatement | ExpressionStatement | FunctionDeclaration | BlockStatement

  /**
   * The precedence of a kind used as a prefix operator; 0 when it is none.
   * All prefix operators share the one level 6 and are one-character
   * tokens.
   */
  function UnaryPrecedence(k: SyntaxKind): (r: nat)
    ensures r == 0 || r == 6
    ensures r > 0 ==> IsToken(k) && GetText(k).Some? && |GetText(k).value| == 1
  {
    match k
    case PlusToken | MinusToken | BangToken => 6
    case _ => 0
  }

  /**
   * The precedence of a kind used as an infix operator; 0 when it is none.
   * The levels run from 1 to 5, and every infix operator is a token with
   * a fixed text.
   */
  function BinaryPrecedence(k: SyntaxKind): (r: nat)
    ensures r <= 5
    ensures r > 0 ==> IsToken(k) && GetText(k).Some?
  {
    match k
    case StarToken | SlashToken => 5
    case PlusToken | MinusToken => 4
    case EqualsEqualsToken | BangEqualsToken | GreaterThanToken | GreaterThanEqualToken
      | LessThanToken | LessThanEqualToken => 3
    case AmpersandToken | AmpersandAmpersandToken => 2
    case PipeToken | PipePipeToken => 1
    case _ => 0
  }

  /** The comparison operators: binary operators that are never prefix ones (their shared level is `ComparisonsShareOneLevel`). */
  function IsComparisonOperator(k: SyntaxKind): (r: bool)
    ensures r ==> UnaryPrecedence(k) == 0 && BinaryPrecedence(k) > 0
  {
    match k
    case EqualsEqualsToken | BangEqualsToken | GreaterThanToken | GreaterThanEqualToken
      | LessThanToken | LessThanEqualToken => true
    case _ => false
  }

  /**
   * The one text a kind always has, if it has one: one or two characters,
   * and only ever for a token.
   */
  function GetText(k: SyntaxKind): (r: Option<string>)
    ensures r.Some? ==> IsToken(k) && 1 <= |r.value| <= 2
  {
    match k
    case AmpersandToken => Some("&")
    case AmpersandAmpersandToken => Some("&&")
    case AmpersandEqualToken => Some("&=")
    case PipeToken => Some("|")
    case PipePipeToken => Some("||")
    case PipeEqualToken => Some("|=")
    case HatToken => Some("^")
    case HatEqualToken => Some("^=")
    case PlusToken => Some("+")
    case PlusEqualsToken => Some("+=")
    case MinusToken => Some("-")
    case MinusEqualsToken => Some("-=")
    case StarToken => Some("*")
    case StarEqualsToken => Some("*=")
    case SlashToken => Some("/")
    case SlashEqualsToken => Some("/=")
    case PercentToken => Some("%")
    case PercentEqualsToken => Some("%=")
    case EqualsToken => Some("=")
    case EqualsEqualsToken => Some("==")
    case BangToken => Some("!")
    case BangEqualsToken => Some("!=")
    case GreaterThanToken => Some(">")
    case GreaterThanEqualToken => Some(">=")
    case LessThanToken => Some("<")
    case LessThanEqualToken => Some("<=")
    case LeftParenthesisToken => Some("(")
    case RightParenthesisToken => Some(")")
    case LeftBracketToken => Some("[")
    case RightBracketToken => Some("]")
    case LeftBraceToken => Some("{")
    case RightBraceToken => Some("}")
    case DotToken => Some(".")
    case CommaToken => Some(",")
    case _ => None
  }

  predicate IsMarker(k: SyntaxKind) { k == UnknownMarker || k == EndOfFileMarker }

  /** The trivia kinds: the five declared right after `UnknownMarker` (`KindRanges`). */
  predicate IsTrivia(k: SyntaxKind) {
    k in {WhitespaceTrivia, NewlineTrivia, BlockCommentTrivia, SingleLineCommentTrivia, SkippedTextTrivia}
  }

  /**
   * The token kinds as the classification lists them: the kinds declared
   * from `BadToken` to `CommaToken` (`KindRanges`). The semicolon and the
   * two keyword kinds, declared after them, are not in the list.
   */
  predicate IsToken(k: SyntaxKind) {
    match k
    case AmpersandToken | AmpersandAmpersandToken | AmpersandEqualToken
      | PipeToken | PipePipeToken | PipeEqualToken | HatToken | HatEqualToken
      | BadToken | NumberToken | StringToken | IdentifierToken
      | PlusToken | PlusEqualsToken | MinusToken | MinusEqualsToken
      | StarToken | StarEqualsToken | SlashToken | SlashEqualsToken
      | PercentToken | PercentEqualsToken | EqualsToken | EqualsEqualsToken
      | BangToken | BangEqualsToken | GreaterThanToken | GreaterThanEqualToken
      | LessThanToken | LessThanEqualToken
      | LeftParenthesisToken | RightParenthesisToken | LeftBracketToken | RightBracketToken
      | LeftBraceToken | RightBraceToken | DotToken | CommaToken => true
    case _ => false
  }

  /**
   * The node kinds: what is neither token, trivia nor marker. These are
   * the kinds declared from `SemicolonToken` on (`KindRanges`), so the
   * semicolon and the keywords classify as nodes; none has a fixed text
   * or is an operator.
   */
  function IsNode(k: SyntaxKind): (r: bool)
    ensures r ==> GetText(k).None? && UnaryPrecedence(k) == 0 && BinaryPrecedence(k) == 0
  {
    !IsToken(k) && !IsTrivia(k) && !IsMarker(k)
  }

  /** There are no keywords yet: not even `FunKeyword` and `EndKeyword` count as one. */
  function IsKeyword(k: SyntaxKind): (r: bool)
    ensures !r
  {
    false
  }

  /**
   * The underlying value of a kind: its position in the declaration, below
   * the number of kinds, and the position `KindAt` maps back to it.
   */
  function Ordinal(k: SyntaxKind): (n: nat)
    ensures n < KindCount && KindAt(n) == k
  {
    match k
    case UnknownMarker => 0
    case WhitespaceTrivia => 1
    case SingleLineCommentTrivia => 2
    case BlockCommentTrivia => 3
    case NewlineTrivia => 4
    case SkippedTextTrivia => 5
    case EndOfFileMarker => 6
    case BadToken => 7
    case NumberToken => 8
    case StringToken => 9
    case IdentifierToken => 10
    case AmpersandToken => 11
    case AmpersandAmpersandToken => 12
    case AmpersandEqualToken => 13
    case PipeToken => 14
    case PipePipeToken => 15
    case PipeEqualToken => 16
    case HatToken => 17
    case HatEqualToken => 18
    case PlusToken => 19
    case PlusEqualsToken => 20
    case MinusToken => 21
    case MinusEqualsToken => 22
    case StarToken => 23
    case StarEqualsToken => 24
    case SlashToken => 25
    case SlashEqualsToken => 26
    case PercentToken => 27
    case PercentEqualsToken => 28
    case EqualsToken => 29
    case EqualsEqualsToken => 30
    case BangToken => 31
    case BangEqualsToken => 32
    case GreaterThanToken => 33
    case GreaterThanEqualToken => 34
    case LessThanToken => 35
    case LessThanEqualToken => 36
    case LeftParenthesisToken => 37
    case RightParenthesisToken => 38
    case LeftBracketToken => 39
    case RightBracketToken => 40
    case LeftBraceToken => 41
    case RightBraceToken => 42
    case DotToken => 43
    case CommaToken => 44
    case SemicolonToken => 45
    case FunKeyword => 46
    case EndKeyword => 47
    case CompilationUnit => 48
    case BinaryExpression => 49
    case UnaryExpression => 50
    case LiteralExpression => 51
    case CallExpression => 52
    case NameExpression => 53
    case GlobalStatement => 54
    case ExpressionStatement => 55
    case FunctionDeclaration => 56
    case BlockStatement => 57
  }

  const KindCount: nat := 58

  /** The kind whose underlying value is `i`. */
  function KindAt(i: nat): (k: SyntaxKind)
    requires i < KindCount
  {
    match i
    case 0 => UnknownMarker
    case 1 => WhitespaceTrivia
    case 2 => SingleLineCommentTrivia
    case 3 => BlockCommentTrivia
    case 4 => NewlineTrivia
    case 5 => SkippedTextTrivia
    case 6 => EndOfFileMarker
    case 7 => BadToken
    case 8 => NumberToken
    case 9 => StringToken
    case 10 => IdentifierToken
    case 11 => AmpersandToken
    case 12 => AmpersandAmpersandToken
    case 13 => AmpersandEqualToken
    case 14 => PipeToken
    case 15 => PipePipeToken
    case 16 => PipeEqualToken
    case 17 => HatToken
    case 18 => HatEqualToken
    case 19 => PlusToken
    case 20 => PlusEqualsToken
    case 21 => MinusToken
    case 22 => MinusEqualsToken
    case 23 => StarToken
    case 24 => StarEqualsToken
    case 25 => SlashToken
    case 26 => SlashEqualsToken
    case 27 => PercentToken
    case 28 => PercentEqualsToken
    case 29 => EqualsToken
    case 30 => EqualsEqualsToken
    case 31 => BangToken
    case 32 => BangEqualsToken
    case 33 => GreaterThanToken
    case 34 => GreaterThanEqualToken
    case 35 => LessThanToken
    case 36 => LessThanEqualToken
    case 37 => LeftParenthesisToken
    case 38 => RightParenthesisToken
    case 39 => LeftBracketToken
    case 40 => RightBracketToken
    case 41 => LeftBraceToken
    case 42 => RightBraceToken
    case 43 => DotToken
    case 44 => CommaToken
    case 45 => SemicolonToken
    case 46 => FunKeyword
    case 47 => EndKeyword
    case 48 => CompilationUnit
    case 49 => BinaryExpression
    case 50 => UnaryExpression
    case 51 => LiteralExpression
    case 52 => CallExpression
    case 53 => NameExpression
    case 54 => GlobalStatement
    case 55 => ExpressionStatement
    case 56 => FunctionDeclaration
    case _ => BlockStatement
  }

  /** `Enum.GetValues`: every kind, in declaration order. */
  function AllKinds(): seq<SyntaxKind> {
    seq(KindCount, i requires 0 <= i < KindCount => KindAt(i))
  }

  /** `Where`: the elements of `s` that satisfy `p`, in their order. */
  function Filter(s: seq<SyntaxKind>, p: SyntaxKind -> bool): (r: seq<SyntaxKind>)
    ensures forall k :: k in r <==> k in s && p(k)
    ensures |r| <= |s|
  {
    if s == [] then [] else (if p(s[0]) then [s[0]] else []) + Filter(s[1..], p)
  }

  function Tokens(): seq<SyntaxKind> { Filter(AllKinds(), IsToken) }

  function BinaryOperators(): seq<SyntaxKind> { Filter(AllKinds(), k => BinaryPrecedence(k) > 0) }

  function UnaryOperators(): seq<SyntaxKind> { Filter(AllKinds(), k => UnaryPrecedence(k) > 0) }

  /** The name of a kind, as `ToString` spells the enumeration member. */
  function KindName(k: SyntaxKind): string {
    match k
    case UnknownMarker => "UnknownMarker"
    case WhitespaceTrivia => "WhitespaceTrivia"
    case SingleLineCommentTrivia => "SingleLineCommentTrivia"
    case BlockCommentTrivia => "BlockCommentTrivia"
    case NewlineTrivia => "NewlineTrivia"
    case SkippedTextTrivia => "SkippedTextTrivia"
    case EndOfFileMarker => "EndOfFileMarker"
    case BadToken => "BadToken"
    case NumberToken => "NumberToken"
    case StringToken => "StringToken"
    case IdentifierToken => "IdentifierToken"
    case AmpersandToken => "AmpersandToken"
    case AmpersandAmpersandToken => "AmpersandAmpersandToken"
    case AmpersandEqualToken => "AmpersandEqualToken"
    case PipeToken => "PipeToken"
    case PipePipeToken => "PipePipeToken"
    case PipeEqualToken => "PipeEqualToken"
    case HatToken => "HatToken"
    case HatEqualToken => "HatEqualToken"
    case PlusToken => "PlusToken"
    case PlusEqualsToken => "PlusEqualsToken"
    case MinusToken => "MinusToken"
    case MinusEqualsToken => "MinusEqualsToken"
    case StarToken => "StarToken"
    case StarEqualsToken => "StarEqualsToken"
    case SlashToken => "SlashToken"
    case SlashEqualsToken => "SlashEqualsToken"
    case PercentToken => "PercentToken"
    case PercentEqualsToken => "PercentEqualsToken"
    case EqualsToken => "EqualsToken"
    case EqualsEqualsToken => "EqualsEqualsToken"
    case BangToken => "BangToken"
    case BangEqualsToken => "BangEqualsToken"
    case GreaterThanToken => "GreaterThanToken"
    case GreaterThanEqualToken => "GreaterThanEqualToken"
    case LessThanToken => "LessThanToken"
    case LessThanEqualToken => "LessThanEqualToken"
    case LeftParenthesisToken => "LeftParenthesisToken"
    case RightParenthesisToken => "RightParenthesisToken"
    case LeftBracketToken => "LeftBracketToken"
    case RightBracketToken => "RightBracketToken"
    case LeftBraceToken => "LeftBraceToken"
    case RightBraceToken => "RightBraceToken"
    case DotToken => "DotToken"
    case CommaToken => "CommaToken"
    case SemicolonToken => "SemicolonToken"
    case FunKeyword => "FunKeyword"
    case EndKeyword => "EndKeyword"
    case CompilationUnit => "CompilationUnit"
    case BinaryExpression => "BinaryExpression"
    case UnaryExpression => "UnaryExpression"
    case LiteralExpression => "LiteralExpression"
    case CallExpression => "CallExpression"
    case NameExpression => "NameExpression"
    case GlobalStatement => "GlobalStatement"
    case ExpressionStatement => "ExpressionStatement"
    case FunctionDeclaration => "FunctionDeclaration"
    case BlockStatement => "BlockStatement"
  }

  // ---------------------------------------------------------------------
  // Properties of the tables
  // ---------------------------------------------------------------------

  /** Every prefix operator binds tighter than every infix operator. */
  lemma UnaryBindsTighterThanBinary(u: SyntaxKind, b: SyntaxKind)
    requires UnaryPrecedence(u) > 0
    ensures UnaryPrecedence(u) > BinaryPrecedence(b)
  {
  }

  /** The comparison operators are exactly the kinds at precedence level 3. */
  lemma ComparisonsShareOneLevel(k: SyntaxKind)
    ensures IsComparisonOperator(k) <==> BinaryPrecedence(k) == 3
  {
  }

  /** Operators on different precedence levels are never both comparisons. */
  lemma NotBothComparisons(a: SyntaxKind, b: SyntaxKind)
    requires BinaryPrecedence(a) < BinaryPrecedence(b)
    ensures !IsComparisonOperator(b) || !IsComparisonOperator(a)
  {
    ComparisonsShareOneLevel(a);
    ComparisonsShareOneLevel(b);
  }

  /** The kinds with a fixed text are the tokens other than the four with variable text. */
  lemma FixedTextKinds(k: SyntaxKind)
    ensures GetText(k).Some? <==>
            IsToken(k) && k !in {BadToken, NumberToken, StringToken, IdentifierToken}
  {
  }

  /** Every kind is exactly one of token, trivia, marker and node. */
  lemma ClassificationPartitions(k: SyntaxKind)
    ensures (if IsToken(k) then 1 else 0) + (if IsTrivia(k) then 1 else 0)
          + (if IsMarker(k) then 1 else 0) + (if IsNode(k) then 1 else 0) == 1
  {
  }

  /** Each class is one contiguous run of the declaration: trivia 1 to 5, tokens 7 to 44, nodes from 45 on. */
  lemma KindRanges(k: SyntaxKind)
    ensures IsTrivia(k) <==> 1 <= Ordinal(k) <= 5
    ensures IsToken(k) <==> 7 <= Ordinal(k) <= 44
    ensures IsNode(k) <==> Ordinal(k) >= 45
    ensures IsMarker(k) <==> Ordinal(k) == 0 || Ordinal(k) == 6
  {
  }

  /** `AllKinds()` holds every kind, at the position of its underlying value. */
  lemma AllKindsComplete(k: SyntaxKind)
    ensures k in AllKinds() && AllKinds()[Ordinal(k)] == k
  {
    assert AllKinds()[Ordinal(k)] == KindAt(Ordinal(k));
  }

  /** `BinaryOperators()` lists exactly the kinds with a binary precedence. */
  lemma BinaryOperatorsExact(k: SyntaxKind)
    ensures k in BinaryOperators() <==> BinaryPrecedence(k) > 0
  {
    AllKindsComplete(k);
  }

  /** `UnaryOperators()` lists exactly `+`, `-` and `!`. */
  lemma UnaryOperatorsExact(k: SyntaxKind)
    ensures k in UnaryOperators() <==> k in {PlusToken, MinusToken, BangToken}
  {
    AllKindsComplete(k);
  }

  /** `Tokens()` lists exactly the kinds classified as tokens. */
  lemma TokensExact(k: SyntaxKind)
    ensures k in Tokens() <==> IsToken(k)
  {
    AllKindsComplete(k);
  }
}
