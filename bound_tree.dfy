/**
 * The bound tree: expressions and statements with their names resolved
 * to symbols, the bound program, and the indented text dump
 * (`FormatTo`) of each.
 */
module BoundTree {
  import opened Wrappers
  import opened Strings
  import opened Syntax
  import opened Symbols
  import opened Writers
  import opened Diagnostics

  // ---------------------------------------------------------------------
  // Expressions
  // ---------------------------------------------------------------------

  /** `BoundConstant`: the value of an expression known before the program runs. */
  datatype BoundConstant = BoundConstant(value: string)

  /**
   * A literal holds a string: constructing one from any other value
   * throws, so no literal of another type exists (`MakeLiteral`).
   */
  datatype BoundExpression =
    | BoundErrorExpression(syntax: ExpressionSyntax)
    | BoundLiteralExpression(syntax: ExpressionSyntax, value: string)
    | BoundCallExpression(syntax: ExpressionSyntax, callee: FunctionSym, arguments: seq<BoundExpression>)

  /** The message `GetTypeForValue` throws with for a value that is not a string. */
  function UnknownLiteralType(i: int): string {
    "Unknown literal type for value '" + IntToString(i) + "'"
  }

  /** The constructor of a literal: `GetTypeForValue` runs first, and throws for a value that is not a string. */
  function MakeLiteral(syntax: ExpressionSyntax, v: TokenValue): (r: Result<BoundExpression>)
    ensures r.Ok? <==> v.StringValue?
    ensures r.Ok? ==> r.value.BoundLiteralExpression? && r.value.syntax == syntax && r.value.value == v.s
    ensures r.Ok? ==> Type(r.value) == StringType && ConstantValue(r.value) == Some(BoundConstant(v.s))
    ensures v.IntValue? ==> r == Fatal(UnknownLiteralType(v.i))
  {
    match v
    case StringValue(s) => Ok(BoundLiteralExpression(syntax, s))
    case IntValue(i) => Fatal(UnknownLiteralType(i))
  }

  /** `Type`: the error type, `string`, or the called function's return type. */
  function Type(e: BoundExpression): (t: TypeSymbol)
    ensures !e.BoundCallExpression? ==> (t == ErrorType <==> e.BoundErrorExpression?)
    ensures e.BoundLiteralExpression? ==> t == StringType
    ensures e.BoundCallExpression? ==> t == e.callee.returnType
  {
    match e
    case BoundErrorExpression(_) => ErrorType
    case BoundLiteralExpression(_, _) => StringType
    case BoundCallExpression(_, f, _) => f.returnType
  }

  /** `ConstantValue`: a literal's value; no other expression has one. */
  function ConstantValue(e: BoundExpression): (r: Option<BoundConstant>)
    ensures r.Some? ==> e.BoundLiteralExpression? && r.value.value == e.value
    ensures r.Some? ==> Type(e) == StringType && ExpressionChildren(e) == []
    ensures e.BoundCallExpression? || e.BoundErrorExpression? ==> r.None?
  {
    if e.BoundLiteralExpression? then Some(BoundConstant(e.value)) else None
  }

  /** `GetChildren`: a call's arguments, in order; other expressions have none. */
  function ExpressionChildren(e: BoundExpression): seq<BoundExpression> {
    if e.BoundCallExpression? then e.arguments else []
  }

  /** `FormatValue`: a string value quoted, with its line breaks and tabs made visible. */
  function FormatValue(s: string): string {
    "\"" + Unescape(s) + "\""
  }

  /** `FormatSelf`: the node's type name, then for a literal its value and type, for a call its function and type. */
  function ExpressionSelf(e: BoundExpression): (r: string)
    ensures !e.BoundErrorExpression? ==> |r| >= |" : " + Type(e).name| && r[|r| - |" : " + Type(e).name|..] == " : " + Type(e).name
    ensures e.BoundLiteralExpression? ==> '\n' !in r
  {
    match e
    case BoundErrorExpression(_) => "BoundErrorExpression"
    case BoundLiteralExpression(_, v) =>
      LiteralSelfHasNoBreak(v);
      "BoundLiteralExpression" + " " + FormatValue(v) + (" : " + StringType.name)
    case BoundCallExpression(_, f, _) => "BoundCallExpression" + " " + f.name + (" : " + f.returnType.name)
  }

  /** The lines `FormatTo` writes for an expression: its own line at `indent` spaces, then its children at `indent + 2`. */
  function ExpressionLines(e: BoundExpression, indent: nat): (r: seq<string>)
    ensures |r| >= 1 && r[0] == Spaces(indent) + ExpressionSelf(e)
    ensures |r| == 1 <==> !e.BoundCallExpression? || e.arguments == []
    decreases e, 1
  {
    [Spaces(indent) + ExpressionSelf(e)] + (if e.BoundCallExpression? then ArgumentLines(e, 0, indent + 2) else [])
  }

  /** The lines of a call's arguments from index `from` on, each at `indent`. */
  function ArgumentLines(e: BoundExpression, from: nat, indent: nat): (r: seq<string>)
    requires e.BoundCallExpression? && from <= |e.arguments|
    ensures |r| >= |e.arguments| - from
    decreases e, 0, |e.arguments| - from
  {
    if from == |e.arguments| then []
    else ExpressionLines(e.arguments[from], indent) + ArgumentLines(e, from + 1, indent)
  }

  /** How many nodes an expression has: itself and those below it. */
  function ExpressionCount(e: BoundExpression): nat
    decreases e, 1
  {
    1 + (if e.BoundCallExpression? then ArgumentCount(e, 0) else 0)
  }

  function ArgumentCount(e: BoundExpression, from: nat): nat
    requires e.BoundCallExpression? && from <= |e.arguments|
    decreases e, 0, |e.arguments| - from
  {
    if from == |e.arguments| then 0 else ExpressionCount(e.arguments[from]) + ArgumentCount(e, from + 1)
  }

  // ---------------------------------------------------------------------
  // Statements
  // ---------------------------------------------------------------------

  /** Each statement keeps the syntax it was bound from. */
  datatype BoundStatement =
    | BoundExpressionStatement(syntax: StatementSyntax, expression: BoundExpression)
    | BoundBlockStatement(block: BlockSyntax, statements: seq<BoundStatement>)

  /**
   * The lines `FormatTo` writes for a statement: an expression statement
   * has its own line and its expression at `indent + 2`; a block has no
   * line of its own, only its statements', each at `indent`.
   */
  function StatementLines(s: BoundStatement, indent: nat): (r: seq<string>)
    ensures s.BoundExpressionStatement? ==>
      |r| >= 2 && r[0] == Spaces(indent) + "BoundExpressionStatement" && r[1] == Spaces(indent + 2) + ExpressionSelf(s.expression)
    ensures r == [] ==> s.BoundBlockStatement?
    decreases s, 1
  {
    match s
    case BoundExpressionStatement(_, x) => [Spaces(indent) + "BoundExpressionStatement"] + ExpressionLines(x, indent + 2)
    case BoundBlockStatement(_, _) => BlockLines(s, 0, indent)
  }

  /** The lines of a block's statements from index `from` on, each at `indent`. */
  function BlockLines(s: BoundStatement, from: nat, indent: nat): seq<string>
    requires s.BoundBlockStatement? && from <= |s.statements|
    decreases s, 0, |s.statements| - from
  {
    if from == |s.statements| then []
    else StatementLines(s.statements[from], indent) + BlockLines(s, from + 1, indent)
  }

  // ---------------------------------------------------------------------
  // Programs
  // ---------------------------------------------------------------------

  /** One entry of the function-body table. */
  datatype FunctionBody = FunctionBody(symbol: FunctionSym, body: BoundStatement)

  /** `BoundProgram`: the binding diagnostics, one body per function, and the entry point if there is one. */
  datatype BoundProgram = BoundProgram(diagnostics: seq<Diagnostic>, functionBodies: seq<FunctionBody>,
                                       entryPoint: Option<FunctionSym>)

  const EntryPointMark := " (Entry Point)"

  /** A function's header: its name and return type, marked when it is the entry point. */
  function HeaderLine(f: FunctionSym, entryPoint: Option<FunctionSym>, indent: nat): string {
    Spaces(indent) + "Function " + f.name + " : " + f.returnType.name + (if entryPoint == Some(f) then EntryPointMark else "")
  }

  /** The lines `BoundProgram.FormatTo` writes: `Program`, then each function's header at `indent + 2` and its body at `indent + 4`. */
  function ProgramLines(p: BoundProgram, indent: nat): (r: seq<string>)
    ensures |r| >= 1 + |p.functionBodies| && r[0] == Spaces(indent) + "Program"
  {
    [Spaces(indent) + "Program"] + BodiesLines(p, 0, indent + 2)
  }

  function BodiesLines(p: BoundProgram, from: nat, indent: nat): (r: seq<string>)
    requires from <= |p.functionBodies|
    ensures |r| >= |p.functionBodies| - from
    ensures from < |p.functionBodies| ==> r[0] == HeaderLine(p.functionBodies[from].symbol, p.entryPoint, indent)
    decreases |p.functionBodies| - from
  {
    if from == |p.functionBodies| then []
    else
      var b := p.functionBodies[from];
      [HeaderLine(b.symbol, p.entryPoint, indent)] + StatementLines(b.body, indent + 2) + BodiesLines(p, from + 1, indent)
  }

  // ---------------------------------------------------------------------
  // Properties of the dump
  // ---------------------------------------------------------------------

  /** An expression writes one line per node. */
  lemma {:induction false} ExpressionLineCount(e: BoundExpression, indent: nat)
    ensures |ExpressionLines(e, indent)| == ExpressionCount(e)
    decreases e, 1
  {
    if e.BoundCallExpression? {
      ArgumentLineCount(e, 0, indent + 2);
    }
  }

  lemma {:induction false} ArgumentLineCount(e: BoundExpression, from: nat, indent: nat)
    requires e.BoundCallExpression? && from <= |e.arguments|
    ensures |ArgumentLines(e, from, indent)| == ArgumentCount(e, from)
    decreases e, 0, |e.arguments| - from
  {
    if from < |e.arguments| {
      ExpressionLineCount(e.arguments[from], indent);
      ArgumentLineCount(e, from + 1, indent);
    }
  }

  /** Lines indented by `n` spaces are indented by any `m <= n` spaces too. */
  lemma IndentedDeeper(ls: seq<string>, m: nat, n: nat)
    requires m <= n && AllStartWith(ls, Spaces(n))
    ensures AllStartWith(ls, Spaces(m))
  {
    forall i | 0 <= i < |ls| ensures StartsWith(ls[i], Spaces(m)) {
      assert ls[i] == Spaces(n) + ls[i][n..];
      SpacesPrefix(m, n, ls[i][n..]);
    }
  }

  /** Every line of an expression's dump starts with `indent` spaces. */
  lemma {:induction false} ExpressionLinesAreIndented(e: BoundExpression, indent: nat)
    ensures AllStartWith(ExpressionLines(e, indent), Spaces(indent))
    decreases e, 1
  {
    SpacesPrefix(indent, indent, ExpressionSelf(e));
    if e.BoundCallExpression? {
      var rest := ArgumentLines(e, 0, indent + 2);
      ArgumentLinesAreIndented(e, 0, indent + 2);
      IndentedDeeper(rest, indent, indent + 2);
      AllStartWithAppend([Spaces(indent) + ExpressionSelf(e)], rest, Spaces(indent));
    } else {
      AppendNothing([Spaces(indent) + ExpressionSelf(e)]);
    }
  }

  lemma {:induction false} ArgumentLinesAreIndented(e: BoundExpression, from: nat, indent: nat)
    requires e.BoundCallExpression? && from <= |e.arguments|
    ensures AllStartWith(ArgumentLines(e, from, indent), Spaces(indent))
    decreases e, 0, |e.arguments| - from
  {
    if from < |e.arguments| {
      ExpressionLinesAreIndented(e.arguments[from], indent);
      ArgumentLinesAreIndented(e, from + 1, indent);
      AllStartWithAppend(ExpressionLines(e.arguments[from], indent), ArgumentLines(e, from + 1, indent), Spaces(indent));
    }
  }

  /** Every line of a statement's dump starts with `indent` spaces. */
  lemma {:induction false} StatementLinesAreIndented(s: BoundStatement, indent: nat)
    ensures AllStartWith(StatementLines(s, indent), Spaces(indent))
    decreases s, 1
  {
    match s
    case BoundExpressionStatement(_, x) =>
      SpacesPrefix(indent, indent, "BoundExpressionStatement");
      ExpressionLinesAreIndented(x, indent + 2);
      IndentedDeeper(ExpressionLines(x, indent + 2), indent, indent + 2);
      AllStartWithAppend([Spaces(indent) + "BoundExpressionStatement"], ExpressionLines(x, indent + 2), Spaces(indent));
    case BoundBlockStatement(_, _) =>
      BlockLinesAreIndented(s, 0, indent);
  }

  lemma {:induction false} BlockLinesAreIndented(s: BoundStatement, from: nat, indent: nat)
    requires s.BoundBlockStatement? && from <= |s.statements|
    ensures AllStartWith(BlockLines(s, from, indent), Spaces(indent))
    decreases s, 0, |s.statements| - from
  {
    if from < |s.statements| {
      StatementLinesAreIndented(s.statements[from], indent);
      BlockLinesAreIndented(s, from + 1, indent);
      AllStartWithAppend(StatementLines(s.statements[from], indent), BlockLines(s, from + 1, indent), Spaces(indent));
    }
  }

  /** A block inside a block adds nothing to the dump: only the statements appear. */
  lemma NestedBlockIsInvisible(outer: BlockSyntax, inner: BlockSyntax, ss: seq<BoundStatement>, indent: nat)
    ensures StatementLines(BoundBlockStatement(outer, [BoundBlockStatement(inner, ss)]), indent)
         == StatementLines(BoundBlockStatement(inner, ss), indent)
  {
    var s := BoundBlockStatement(outer, [BoundBlockStatement(inner, ss)]);
    assert BlockLines(s, 1, indent) == [];
    AppendNothing(StatementLines(BoundBlockStatement(inner, ss), indent));
  }

  /** Joining two texts without a line break gives a text without one. */
  lemma NoBreakInJoin(a: string, b: string)
    requires '\n' !in a && '\n' !in b
    ensures '\n' !in a + b
  {
    forall i | 0 <= i < |a + b| ensures (a + b)[i] != '\n' {
      if i < |a| { assert (a + b)[i] == a[i]; } else { assert (a + b)[i] == b[i - |a|]; }
    }
  }

  /** A literal's own text has no raw line break: its value shows line breaks escaped. */
  lemma LiteralSelfHasNoBreak(v: string)
    ensures '\n' !in "BoundLiteralExpression" + " " + FormatValue(v) + (" : " + StringType.name)
  {
    NoBreakInJoin("\"", Unescape(v));
    NoBreakInJoin("\"" + Unescape(v), "\"");
    NoBreakInJoin("BoundLiteralExpression" + " ", FormatValue(v));
    NoBreakInJoin("BoundLiteralExpression" + " " + FormatValue(v), " : " + StringType.name);
  }

  /** A literal's line has no raw line break, whatever its value holds: the dump of a call stays one line per node. */
  lemma LiteralLineIsOneLine(syntax: ExpressionSyntax, v: string, indent: nat)
    ensures '\n' !in ExpressionLines(BoundLiteralExpression(syntax, v), indent)[0]
  {
    assert '\n' !in Spaces(indent);
    NoBreakInJoin(Spaces(indent), ExpressionSelf(BoundLiteralExpression(syntax, v)));
  }

  /** The program's first line is `Program`, and every line is indented at least `indent` spaces. */
  lemma {:induction false} ProgramLinesAreIndented(p: BoundProgram, indent: nat)
    ensures ProgramLines(p, indent)[0] == Spaces(indent) + "Program"
    ensures AllStartWith(ProgramLines(p, indent), Spaces(indent))
  {
    SpacesPrefix(indent, indent, "Program");
    BodiesLinesAreIndented(p, 0, indent + 2);
    IndentedDeeper(BodiesLines(p, 0, indent + 2), indent, indent + 2);
    AllStartWithAppend([Spaces(indent) + "Program"], BodiesLines(p, 0, indent + 2), Spaces(indent));
  }

  lemma {:induction false} BodiesLinesAreIndented(p: BoundProgram, from: nat, indent: nat)
    requires from <= |p.functionBodies|
    ensures AllStartWith(BodiesLines(p, from, indent), Spaces(indent))
    decreases |p.functionBodies| - from
  {
    if from < |p.functionBodies| {
      var b := p.functionBodies[from];
      var header := HeaderLine(b.symbol, p.entryPoint, indent);
      assert header == Spaces(indent) + header[indent..];
      SpacesPrefix(indent, indent, header[indent..]);
      StatementLinesAreIndented(b.body, indent + 2);
      IndentedDeeper(StatementLines(b.body, indent + 2), indent, indent + 2);
      BodiesLinesAreIndented(p, from + 1, indent);
      AllStartWithAppend([header], StatementLines(b.body, indent + 2), Spaces(indent));
      AllStartWithAppend([header] + StatementLines(b.body, indent + 2), BodiesLines(p, from + 1, indent), Spaces(indent));
    }
  }

  // ---------------------------------------------------------------------
  // FormatTo, writing to a writer
  // ---------------------------------------------------------------------

  /** `BoundNode.FormatTo` for an expression: its own line, then each child at `indent + 2`. */
  method FormatExpression(e: BoundExpression, writer: LineWriter, indent: nat)
    modifies writer
    ensures writer.lines == old(writer.lines) + ExpressionLines(e, indent)
    decreases e
  {
    var line := Spaces(indent) + ExpressionSelf(e);
    writer.WriteLine(line);
    if e.BoundCallExpression? {
      ghost var start := writer.lines;
      for i := 0 to |e.arguments|
        invariant writer.lines + ArgumentLines(e, i, indent + 2) == start + ArgumentLines(e, 0, indent + 2)
      {
        ghost var before := writer.lines;
        FormatExpression(e.arguments[i], writer, indent + 2);
        AppendAssoc(before, ExpressionLines(e.arguments[i], indent + 2), ArgumentLines(e, i + 1, indent + 2));
      }
      AppendNothing(writer.lines);
      AppendAssoc(old(writer.lines), [line], ArgumentLines(e, 0, indent + 2));
    } else {
      AppendNothing([line]);
    }
  }

  /** `FormatTo` for a statement: an expression statement's line and expression, or a block's statements at the same indent. */
  method FormatStatement(s: BoundStatement, writer: LineWriter, indent: nat)
    modifies writer
    ensures writer.lines == old(writer.lines) + StatementLines(s, indent)
    decreases s
  {
    match s
    case BoundExpressionStatement(_, x) =>
      writer.WriteLine(Spaces(indent) + "BoundExpressionStatement");
      FormatExpression(x, writer, indent + 2);
      AppendAssoc(old(writer.lines), [Spaces(indent) + "BoundExpressionStatement"], ExpressionLines(x, indent + 2));
    case BoundBlockStatement(_, ss) =>
      for i := 0 to |ss|
        invariant writer.lines + BlockLines(s, i, indent) == old(writer.lines) + BlockLines(s, 0, indent)
      {
        ghost var before := writer.lines;
        FormatStatement(ss[i], writer, indent);
        AppendAssoc(before, StatementLines(ss[i], indent), BlockLines(s, i + 1, indent));
      }
      AppendNothing(writer.lines);
  }

  /** `BoundProgram.FormatTo`: `Program`, then each function's header and body; it always returns true. */
  method FormatProgram(p: BoundProgram, writer: LineWriter, indent: nat) returns (ok: bool)
    modifies writer
    ensures ok
    ensures writer.lines == old(writer.lines) + ProgramLines(p, indent)
  {
    writer.WriteLine(Spaces(indent) + "Program");
    ghost var start := writer.lines;
    for i := 0 to |p.functionBodies|
      invariant writer.lines + BodiesLines(p, i, indent + 2) == start + BodiesLines(p, 0, indent + 2)
    {
      var b := p.functionBodies[i];
      var functionIndent := indent + 2;
      var epStr := "";
      if Some(b.symbol) == p.entryPoint {
        epStr := EntryPointMark;
      }
      ghost var before := writer.lines;
      var header := Spaces(functionIndent) + "Function " + b.symbol.name + " : " + b.symbol.returnType.name + epStr;
      writer.WriteLine(header);
      FormatStatement(b.body, writer, functionIndent + 2);
      AppendAssoc(before, [header], StatementLines(b.body, functionIndent + 2));
      AppendAssoc(before, [header] + StatementLines(b.body, functionIndent + 2), BodiesLines(p, i + 1, indent + 2));
    }
    AppendNothing(writer.lines);
    AppendAssoc(old(writer.lines), [Spaces(indent) + "Program"], BodiesLines(p, 0, indent + 2));
    ok := true;
  }
}
