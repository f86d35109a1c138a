/**
 * The binder: resolves the names of a module's syntax trees against
 * scopes, reporting what it cannot resolve, and builds the bound tree of
 * every function body.
 *
 * The specification functions bind over the tables of a scope chain,
 * innermost first: this is all of a `BoundScope` that binding reads. The
 * `Binder` class does the same work step by step on scope objects and a
 * diagnostic builder, and its methods are proved to agree with them.
 */
module Binding {
  import opened Wrappers
  import opened Text
  import opened Syntax
  import opened Symbols
  import opened Scopes
  import opened Diagnostics
  import opened Writers
  import opened BoundTree
  import ParserSpec

  /** The tables of a scope chain, innermost first. */
  type Frames = seq<seq<Symbol>>

  /** A bound node and the diagnostics binding it reported, in order. */
  datatype Bound<T> = Bound(node: T, diagnostics: seq<Diagnostic>)

  /** The message of the `NotImplementedException` names, unary and binary expressions throw. */
  const NotImplemented := "The method or operation is not implemented."

  /** The message `Require` throws with when a function to bind has no declaration. */
  const MissingDeclaration := "'function.Declaration' is null, but was expected to be non-null"

  /** The message of the `NullReferenceException` of reading the members of a tree without a root. */
  const NoRoot := "Object reference not set to an instance of an object."

  /** Nodes bound before `rest`, with their diagnostics before its diagnostics. */
  function Joined<T>(done: seq<T>, ds: seq<Diagnostic>, rest: Result<Bound<seq<T>>>): Result<Bound<seq<T>>> {
    match rest
    case Ok(b) => Ok(Bound(done + b.node, ds + b.diagnostics))
    case Fatal(m) => Fatal(m)
  }

  /** Binding one node and then the rest: an exception in either ends it. */
  function Cons<T>(first: Result<Bound<T>>, rest: Result<Bound<seq<T>>>): Result<Bound<seq<T>>> {
    match first
    case Fatal(m) => Fatal(m)
    case Ok(b) => Joined([b.node], b.diagnostics, rest)
  }

  lemma JoinedCons<T>(done: seq<T>, ds: seq<Diagnostic>, first: Bound<T>, rest: Result<Bound<seq<T>>>)
    ensures Joined(done, ds, Cons(Ok(first), rest)) == Joined(done + [first.node], ds + first.diagnostics, rest)
  {
    if rest.Ok? {
      AppendAssoc(done, [first.node], rest.value.node);
      AppendAssoc(ds, first.diagnostics, rest.value.diagnostics);
    }
  }

  /** One step of a loop that binds a list: the node bound now moves from what is left to what is done. */
  lemma JoinedStep<T>(whole: Result<Bound<seq<T>>>, done: seq<T>, ds: seq<Diagnostic>, here: Result<Bound<seq<T>>>,
                      first: Bound<T>, next: Result<Bound<seq<T>>>)
    requires whole == Joined(done, ds, here) && here == Cons(Ok(first), next)
    ensures whole == Joined(done + [first.node], ds + first.diagnostics, next)
  {
    JoinedCons(done, ds, first, next);
  }

  lemma JoinedEmpty<T>(rest: Result<Bound<seq<T>>>)
    ensures Joined([], [], rest) == rest
  {
    if rest.Ok? {
      EmptyThen(rest.value.node);
      EmptyThen(rest.value.diagnostics);
    }
  }

  lemma JoinedNothing<T>(done: seq<T>, ds: seq<Diagnostic>)
    ensures Joined(done, ds, Ok(Bound([], []))) == Ok(Bound(done, ds))
  {
    AppendNothing(done);
    AppendNothing(ds);
  }

  /** A method's result and new diagnostics agree with a specification's: the same node and the diagnostics appended, or the same exception. */
  predicate Agrees<T(==)>(r: Result<T>, spec: Result<Bound<T>>, before: seq<Diagnostic>, after: seq<Diagnostic>) {
    match spec
    case Ok(b) => r == Ok(b.node) && after == before + b.diagnostics
    case Fatal(m) => r == Fatal(m)
  }

  /** The diagnostic a call reports at its identifier, with the identifier's text as its argument. */
  function CallDiagnostic(descriptor: Descriptor, source: SourceText, id: SyntaxToken): Diagnostic {
    Diagnostic(descriptor, ParserSpec.TokenLocation(source, id), [TextArg(id.text)])
  }

  // ---------------------------------------------------------------------
  // Expressions and statements
  // ---------------------------------------------------------------------

  /**
   * `BindExpression`: a literal binds to itself; a call to its function
   * and its bound arguments, or to an error expression with one
   * diagnostic when its name is undefined or not a function; names, unary
   * and binary expressions throw.
   */
  function ExpressionBinding(frames: Frames, source: SourceText, e: ExpressionSyntax): (r: Result<Bound<BoundExpression>>)
    ensures r.Ok? ==> r.value.node.syntax == e
    ensures e.LiteralExpressionSyntax? ==> (r.Ok? <==> e.value.StringValue?)
    ensures e.NameExpressionSyntax? || e.UnaryExpressionSyntax? || e.BinaryExpressionSyntax? ==> r == Fatal(NotImplemented)
    ensures e.CallExpressionSyntax? && r.Ok? ==>
      (r.value.node.BoundErrorExpression? <==> !(Resolve(frames, e.identifier.text).Some? && Resolve(frames, e.identifier.text).value.FunctionSymbol?))
    ensures r.Ok? && r.value.node.BoundErrorExpression? ==> |r.value.diagnostics| == 1
    ensures e.CallExpressionSyntax? && Resolve(frames, e.identifier.text).None? ==>
      r == Ok(Bound(BoundErrorExpression(e), [CallDiagnostic(UndefinedFunction, source, e.identifier)]))
    ensures e.CallExpressionSyntax? && Resolve(frames, e.identifier.text).Some? && !Resolve(frames, e.identifier.text).value.FunctionSymbol? ==>
      r == Ok(Bound(BoundErrorExpression(e), [CallDiagnostic(NotCallable, source, e.identifier)]))
    ensures r.Ok? && r.value.node.BoundCallExpression? ==>
      && e.CallExpressionSyntax?
      && Resolve(frames, e.identifier.text).Some?
      && Resolve(frames, e.identifier.text).value == r.value.node.callee
      && ArgumentsBinding(frames, source, e.arguments) == Ok(Bound(r.value.node.arguments, r.value.diagnostics))
    decreases ExprSize(e), 0
  {
    match e
    case LiteralExpressionSyntax(_, v) =>
      (match MakeLiteral(e, v)
       case Ok(x) => Ok(Bound(x, []))
       case Fatal(m) => Fatal(m))
    case CallExpressionSyntax(id, _, items, _) =>
      (match Resolve(frames, id.text)
       case None => Ok(Bound(BoundErrorExpression(e), [CallDiagnostic(UndefinedFunction, source, id)]))
       case Some(s) =>
         if !s.FunctionSymbol? then Ok(Bound(BoundErrorExpression(e), [CallDiagnostic(NotCallable, source, id)]))
         else
           match ArgumentsBinding(frames, source, items)
           case Ok(b) => Ok(Bound(BoundCallExpression(e, s, b.node), b.diagnostics))
           case Fatal(m) => Fatal(m))
    case _ => Fatal(NotImplemented)
  }

  /** Every argument item is smaller than the list it heads, and so is the rest of the list. */
  lemma ItemsShrink(items: seq<ArgumentItem>)
    requires items != []
    ensures ItemsSize(items[1..]) < ItemsSize(items)
    ensures items[0].Argument? ==> ExprSize(items[0].expression) <= ItemsSize(items)
  {
    assert ItemsSize(items) == ItemSize(items[0]) + ItemsSize(items[1..]);
    if items[0].Argument? {
      var e := items[0].expression;
      assert ExprSize(e) >= 2 by {
        match e
        case UnaryExpressionSyntax(_, _) =>
        case BinaryExpressionSyntax(_, _, _) =>
        case LiteralExpressionSyntax(_, _) =>
        case CallExpressionSyntax(_, _, _, _) =>
        case NameExpressionSyntax(_) =>
      }
    }
  }

  /** The arguments of a call bound in order; the separators bind to nothing, so there are no more bound expressions than items. */
  function ArgumentsBinding(frames: Frames, source: SourceText, items: seq<ArgumentItem>): (r: Result<Bound<seq<BoundExpression>>>)
    decreases ItemsSize(items), 1
    ensures r.Ok? ==> |r.value.node| <= |items|
  {
    if items == [] then Ok(Bound([], []))
    else
      ItemsShrink(items);
      if items[0].Separator? then ArgumentsBinding(frames, source, items[1..])
      else Cons(ExpressionBinding(frames, source, items[0].expression), ArgumentsBinding(frames, source, items[1..]))
  }

  /** `BindStatement`: an expression statement binds its expression; a block binds as a block. */
  function StatementBinding(frames: Frames, source: SourceText, s: StatementSyntax): (r: Result<Bound<BoundStatement>>)
    ensures r.Ok? && s.ExpressionStatementSyntax? ==> r.value.node.BoundExpressionStatement? && r.value.node.syntax == s
    ensures r.Ok? && s.BlockStatementSyntax? ==> r.value.node.BoundBlockStatement? && r.value.node.block == s
    decreases StmtSize(s), 1
  {
    match s
    case ExpressionStatementSyntax(x) =>
      (match ExpressionBinding(frames, source, x)
       case Ok(b) => Ok(Bound(BoundExpressionStatement(s, b.node), b.diagnostics))
       case Fatal(m) => Fatal(m))
    case BlockStatementSyntax(_) => BlockBinding(frames, source, s)
  }

  /** `BindBlockStatement`: the statements bound in a new, empty scope below the current one. */
  function BlockBinding(frames: Frames, source: SourceText, b: BlockSyntax): (r: Result<Bound<BoundStatement>>)
    ensures r.Ok? ==> r.value.node.BoundBlockStatement? && r.value.node.block == b
    decreases StmtSize(b), 0
  {
    match StatementsBinding([[]] + frames, source, b.statements)
    case Ok(x) => Ok(Bound(BoundBlockStatement(b, x.node), x.diagnostics))
    case Fatal(m) => Fatal(m)
  }

  /** The statements of a block bound in order, one bound statement per statement. */
  function StatementsBinding(frames: Frames, source: SourceText, ss: seq<StatementSyntax>): (r: Result<Bound<seq<BoundStatement>>>)
    decreases StmtsSize(ss), 2
    ensures r.Ok? ==> |r.value.node| == |ss|
  {
    if ss == [] then Ok(Bound([], []))
    else Cons(StatementBinding(frames, source, ss[0]), StatementsBinding(frames, source, ss[1..]))
  }

  // ---------------------------------------------------------------------
  // Properties of expression and statement binding
  // ---------------------------------------------------------------------

  /** A block's scope declares nothing, so it changes no name's resolution: binding inside it is binding outside it. */
  lemma {:induction false} ExpressionScopeIsTransparent(frames: Frames, source: SourceText, e: ExpressionSyntax)
    ensures ExpressionBinding([[]] + frames, source, e) == ExpressionBinding(frames, source, e)
    decreases ExprSize(e), 0
  {
    if e.CallExpressionSyntax? {
      EmptyTableIsTransparent(frames, e.identifier.text);
      ArgumentsScopeIsTransparent(frames, source, e.arguments);
    }
  }

  lemma {:induction false} ArgumentsScopeIsTransparent(frames: Frames, source: SourceText, items: seq<ArgumentItem>)
    ensures ArgumentsBinding([[]] + frames, source, items) == ArgumentsBinding(frames, source, items)
    decreases ItemsSize(items), 1
  {
    if items != [] {
      ItemsShrink(items);
      if items[0].Argument? {
        ExpressionScopeIsTransparent(frames, source, items[0].expression);
      }
      ArgumentsScopeIsTransparent(frames, source, items[1..]);
    }
  }

  lemma {:induction false} StatementScopeIsTransparent(frames: Frames, source: SourceText, s: StatementSyntax)
    ensures StatementBinding([[]] + frames, source, s) == StatementBinding(frames, source, s)
    decreases StmtSize(s), 1
  {
    match s
    case ExpressionStatementSyntax(x) =>
      ExpressionScopeIsTransparent(frames, source, x);
    case BlockStatementSyntax(ss) =>
      StatementsScopeIsTransparent([[]] + frames, source, ss);
  }

  lemma {:induction false} StatementsScopeIsTransparent(frames: Frames, source: SourceText, ss: seq<StatementSyntax>)
    ensures StatementsBinding([[]] + frames, source, ss) == StatementsBinding(frames, source, ss)
    decreases StmtsSize(ss), 2
  {
    if ss != [] {
      StatementScopeIsTransparent(frames, source, ss[0]);
      StatementsScopeIsTransparent(frames, source, ss[1..]);
    }
  }

  /** A block binds its statements as the enclosing scope would: nested blocks only add scopes that declare nothing. */
  lemma BlockBindsInEnclosingScope(frames: Frames, source: SourceText, b: BlockSyntax)
    ensures BlockBinding(frames, source, b) ==
            match StatementsBinding(frames, source, b.statements)
            case Ok(x) => Ok(Bound(BoundBlockStatement(b, x.node), x.diagnostics))
            case Fatal(m) => Fatal(m)
  {
    StatementsScopeIsTransparent(frames, source, b.statements);
  }

  /** The bound expressions were bound from these syntaxes, one for one. */
  predicate BoundFrom(ns: seq<BoundExpression>, es: seq<ExpressionSyntax>) {
    |ns| == |es| && forall i :: 0 <= i < |ns| ==> ns[i].syntax == es[i]
  }

  lemma BoundFromCons(x: BoundExpression, rest: seq<BoundExpression>, e: ExpressionSyntax, es: seq<ExpressionSyntax>)
    requires x.syntax == e && BoundFrom(rest, es)
    ensures BoundFrom([x] + rest, [e] + es)
  {
  }

  /** The bound arguments are the call's arguments, in order, without the separators. */
  lemma {:induction false} ArgumentsFollowSyntax(frames: Frames, source: SourceText, items: seq<ArgumentItem>)
    requires ArgumentsBinding(frames, source, items).Ok?
    ensures BoundFrom(ArgumentsBinding(frames, source, items).value.node, Arguments(items))
    decreases |items|
  {
    if items != [] {
      ArgumentsFollowSyntax(frames, source, items[1..]);
      var rest := ArgumentsBinding(frames, source, items[1..]).value.node;
      if items[0].Argument? {
        var x := ExpressionBinding(frames, source, items[0].expression).value.node;
        BoundFromCons(x, rest, items[0].expression, Arguments(items[1..]));
      } else {
        assert Arguments(items) == [] + Arguments(items[1..]);
        EmptyThen(Arguments(items[1..]));
      }
    }
  }

  /** How many error expressions a bound expression holds. */
  function ErrorCount(x: BoundExpression): nat
    decreases x
  {
    match x
    case BoundErrorExpression(_) => 1
    case BoundLiteralExpression(_, _) => 0
    case BoundCallExpression(_, _, args) => ErrorsIn(args)
  }

  function ErrorsIn(xs: seq<BoundExpression>): nat
    decreases xs
  {
    if xs == [] then 0 else ErrorCount(xs[0]) + ErrorsIn(xs[1..])
  }

  function StatementErrors(s: BoundStatement): nat
    decreases s
  {
    match s
    case BoundExpressionStatement(_, x) => ErrorCount(x)
    case BoundBlockStatement(_, ss) => ErrorsInStatements(ss)
  }

  function ErrorsInStatements(ss: seq<BoundStatement>): nat
    decreases ss
  {
    if ss == [] then 0 else StatementErrors(ss[0]) + ErrorsInStatements(ss[1..])
  }

  /** Every diagnostic binding reports is an undefined or not-callable name at a location in the tree being bound. */
  predicate CallDiagnostics(ds: seq<Diagnostic>, source: SourceText) {
    forall i :: 0 <= i < |ds| ==>
      (ds[i].descriptor == UndefinedFunction || ds[i].descriptor == NotCallable) && ds[i].location.source == source
  }

  lemma CallDiagnosticsAppend(a: seq<Diagnostic>, b: seq<Diagnostic>, source: SourceText)
    requires CallDiagnostics(a, source) && CallDiagnostics(b, source)
    ensures CallDiagnostics(a + b, source)
  {
    forall i | 0 <= i < |a + b| ensures (a + b)[i] == if i < |a| then a[i] else b[i - |a|] { }
  }

  /** The diagnostics of a list bound one node and then the rest: one per error node, each about a call. */
  lemma ConsDiagnostics<T>(first: Bound<T>, rest: Bound<seq<T>>, source: SourceText)
    requires CallDiagnostics(first.diagnostics, source) && CallDiagnostics(rest.diagnostics, source)
    ensures Cons(Ok(first), Ok(rest)) == Ok(Bound([first.node] + rest.node, first.diagnostics + rest.diagnostics))
    ensures CallDiagnostics(first.diagnostics + rest.diagnostics, source)
    ensures |first.diagnostics + rest.diagnostics| == |first.diagnostics| + |rest.diagnostics|
  {
    CallDiagnosticsAppend(first.diagnostics, rest.diagnostics, source);
  }

  /** Binding reports exactly one diagnostic per error expression it builds, each about an unresolvable call. */
  lemma {:induction false} ExpressionDiagnostics(frames: Frames, source: SourceText, e: ExpressionSyntax)
    requires ExpressionBinding(frames, source, e).Ok?
    ensures var b := ExpressionBinding(frames, source, e).value;
            |b.diagnostics| == ErrorCount(b.node) && CallDiagnostics(b.diagnostics, source)
    decreases ExprSize(e), 0
  {
    if e.CallExpressionSyntax? && ArgumentsBinding(frames, source, e.arguments).Ok? {
      ArgumentDiagnostics(frames, source, e.arguments);
    }
  }

  lemma {:induction false} ArgumentDiagnostics(frames: Frames, source: SourceText, items: seq<ArgumentItem>)
    requires ArgumentsBinding(frames, source, items).Ok?
    ensures var b := ArgumentsBinding(frames, source, items).value;
            |b.diagnostics| == ErrorsIn(b.node) && CallDiagnostics(b.diagnostics, source)
    decreases ItemsSize(items), 1
  {
    if items != [] {
      ItemsShrink(items);
      ArgumentDiagnostics(frames, source, items[1..]);
      if items[0].Argument? {
        var first := ExpressionBinding(frames, source, items[0].expression).value;
        var rest := ArgumentsBinding(frames, source, items[1..]).value;
        ExpressionDiagnostics(frames, source, items[0].expression);
        ConsDiagnostics(first, rest, source);
        assert ([first.node] + rest.node)[1..] == rest.node;
      }
    }
  }

  lemma {:induction false} StatementDiagnostics(frames: Frames, source: SourceText, s: StatementSyntax)
    requires StatementBinding(frames, source, s).Ok?
    ensures var b := StatementBinding(frames, source, s).value;
            |b.diagnostics| == StatementErrors(b.node) && CallDiagnostics(b.diagnostics, source)
    decreases StmtSize(s), 1
  {
    match s
    case ExpressionStatementSyntax(x) =>
      ExpressionDiagnostics(frames, source, x);
    case BlockStatementSyntax(ss) =>
      StatementsDiagnostics([[]] + frames, source, ss);
  }

  lemma {:induction false} StatementsDiagnostics(frames: Frames, source: SourceText, ss: seq<StatementSyntax>)
    requires StatementsBinding(frames, source, ss).Ok?
    ensures var b := StatementsBinding(frames, source, ss).value;
            |b.diagnostics| == ErrorsInStatements(b.node) && CallDiagnostics(b.diagnostics, source)
    decreases StmtsSize(ss), 2
  {
    if ss != [] {
      var first := StatementBinding(frames, source, ss[0]).value;
      var rest := StatementsBinding(frames, source, ss[1..]).value;
      StatementDiagnostics(frames, source, ss[0]);
      StatementsDiagnostics(frames, source, ss[1..]);
      ConsDiagnostics(first, rest, source);
      assert ([first.node] + rest.node)[1..] == rest.node;
    }
  }

  // ---------------------------------------------------------------------
  // Declaring a module's functions
  // ---------------------------------------------------------------------

  /** What binding needs of a syntax tree: its text, its root, and its diagnostics. */
  datatype ParsedTree = ParsedTree(text: SourceText, root: Option<CompilationUnitSyntax>, diagnostics: seq<Diagnostic>)

  /** The diagnostics of all trees, tree by tree. */
  function TreeDiagnostics(trees: seq<ParsedTree>): seq<Diagnostic> {
    if trees == [] then [] else trees[0].diagnostics + TreeDiagnostics(trees[1..])
  }

  /** The members of a root, each with the text of its tree. */
  function MembersOf(text: SourceText, members: seq<FunctionDeclarationSyntax>): (r: seq<Declaration>)
    ensures |r| == |members| && forall i :: 0 <= i < |r| ==> r[i] == Declaration(text, members[i])
  {
    seq(|members|, i requires 0 <= i < |members| => Declaration(text, members[i]))
  }

  /** The function declarations of all trees, tree by tree; reading the members of a tree without a root throws. */
  function Declarations(trees: seq<ParsedTree>): (r: Result<seq<Declaration>>)
    ensures r.Ok? <==> forall i :: 0 <= i < |trees| ==> trees[i].root.Some?
  {
    if trees == [] then Ok([])
    else
      var rest := Declarations(trees[1..]);
      assert (forall i :: 0 <= i < |trees| ==> trees[i].root.Some?) <==>
             trees[0].root.Some? && forall i :: 0 <= i < |trees[1..]| ==> trees[1..][i].root.Some? by {
        forall i | 0 < i < |trees| ensures trees[i] == trees[1..][i - 1] { }
      }
      match trees[0].root
      case None => Fatal(NoRoot)
      case Some(u) =>
        match rest
        case Ok(ds) => Ok(MembersOf(trees[0].text, u.members) + ds)
        case Fatal(m) => Fatal(m)
  }

  /** The symbol `BindFunctionDeclaration` declares: the function's name, returning `void`. */
  function FunctionFor(d: Declaration): FunctionSym {
    FunctionSymbol(d.syntax.identifier.text, VoidType, Some(d))
  }

  /** A table of symbols and the diagnostics reported while filling it. */
  datatype Table = Table(symbols: seq<Symbol>, diagnostics: seq<Diagnostic>)

  /**
   * `BindFunctionDeclaration`: the function is added under its name, or,
   * when the name is already taken, the table stays as it is and the
   * one diagnostic returned reports the duplicate.
   */
  function DeclareStep(symbols: seq<Symbol>, d: Declaration): (r: Table)
    ensures Declares(symbols, FunctionFor(d).name) ==>
      r.symbols == symbols && |r.diagnostics| == 1 && r.diagnostics[0].descriptor == SymbolAlreadyDeclared
    ensures !Declares(symbols, FunctionFor(d).name) ==> r.symbols == symbols + [FunctionFor(d)] && r.diagnostics == []
  {
    var f := FunctionFor(d);
    if Declares(symbols, f.name) then
      Table(symbols, [Diagnostic(SymbolAlreadyDeclared, ParserSpec.TokenLocation(d.source, d.syntax.identifier), [TextArg(f.name)])])
    else Table(symbols + [f], [])
  }

  /**
   * The declarations declared in order, from an empty table. Each adds at
   * most one symbol, and the first always adds one, so the table is empty
   * exactly when there is nothing to declare.
   */
  function DeclareAll(ds: seq<Declaration>): (r: Table)
    decreases |ds|
    ensures |r.symbols| <= |ds|
    ensures r.symbols == [] <==> ds == []
  {
    if ds == [] then Table([], [])
    else
      var t := DeclareAll(ds[..|ds| - 1]);
      var s := DeclareStep(t.symbols, ds[|ds| - 1]);
      Table(s.symbols, t.diagnostics + s.diagnostics)
  }

  /** The name a declaration declares. */
  function NameOf(d: Declaration): string {
    d.syntax.identifier.text
  }

  /** Declaring keeps the names distinct, and every declared symbol is the function of one of the declarations. */
  lemma {:induction false} DeclaredNamesAreDistinct(ds: seq<Declaration>)
    ensures DistinctNames(DeclareAll(ds).symbols)
    ensures forall i :: 0 <= i < |DeclareAll(ds).symbols| ==> DeclareAll(ds).symbols[i] in FunctionsFor(ds)
    decreases |ds|
  {
    if ds != [] {
      var init := ds[..|ds| - 1];
      DeclaredNamesAreDistinct(init);
      var t := DeclareAll(init);
      var f := FunctionFor(ds[|ds| - 1]);
      FunctionsForSnoc(init, ds[|ds| - 1]);
      assert ds == init + [ds[|ds| - 1]];
      if !Declares(t.symbols, f.name) {
        var ss := t.symbols + [f];
        forall i, j | 0 <= i < j < |ss| ensures ss[i].Name() != ss[j].Name() {
          if j == |t.symbols| {
            assert ss[i] == t.symbols[i];
          }
        }
      }
    }
  }

  /** The functions of a list of declarations, one per declaration. */
  function FunctionsFor(ds: seq<Declaration>): (r: seq<FunctionSym>)
    ensures |r| == |ds| && forall i :: 0 <= i < |ds| ==> r[i] == FunctionFor(ds[i])
  {
    seq(|ds|, i requires 0 <= i < |ds| => FunctionFor(ds[i]))
  }

  lemma FunctionsForSnoc(init: seq<Declaration>, d: Declaration)
    ensures FunctionsFor(init + [d]) == FunctionsFor(init) + [FunctionFor(d)]
  {
  }

  /** Each declaration either adds one symbol or reports one duplicate, and every report is a duplicate. */
  lemma {:induction false} DeclarationsAreAccounted(ds: seq<Declaration>)
    ensures |DeclareAll(ds).symbols| + |DeclareAll(ds).diagnostics| == |ds|
    ensures forall i :: 0 <= i < |DeclareAll(ds).diagnostics| ==> DeclareAll(ds).diagnostics[i].descriptor == SymbolAlreadyDeclared
    decreases |ds|
  {
    if ds != [] {
      var init := ds[..|ds| - 1];
      DeclarationsAreAccounted(init);
      var t := DeclareAll(init);
      var s := DeclareStep(t.symbols, ds[|ds| - 1]);
      forall i | 0 <= i < |t.diagnostics + s.diagnostics|
        ensures (t.diagnostics + s.diagnostics)[i].descriptor == SymbolAlreadyDeclared
      {
        if i >= |t.diagnostics| {
          assert (t.diagnostics + s.diagnostics)[i] == s.diagnostics[i - |t.diagnostics|];
        }
      }
    }
  }

  /** A name is declared exactly when some declaration has it. */
  lemma {:induction false} DeclaredIffSomeDeclaration(ds: seq<Declaration>, name: string)
    ensures Declares(DeclareAll(ds).symbols, name) <==> exists i :: 0 <= i < |ds| && NameOf(ds[i]) == name
    decreases |ds|
  {
    if ds != [] {
      var init := ds[..|ds| - 1];
      var d := ds[|ds| - 1];
      DeclaredIffSomeDeclaration(init, name);
      var t := DeclareAll(init);
      if exists i :: 0 <= i < |ds| && NameOf(ds[i]) == name {
        var i :| 0 <= i < |ds| && NameOf(ds[i]) == name;
        if i < |init| {
          assert init[i] == ds[i];
          var k :| 0 <= k < |t.symbols| && t.symbols[k].Name() == name;
          assert DeclareAll(ds).symbols[k] == t.symbols[k];
        } else if !Declares(t.symbols, name) {
          assert DeclareAll(ds).symbols[|t.symbols|] == FunctionFor(d);
        }
      }
      if Declares(DeclareAll(ds).symbols, name) {
        var k :| 0 <= k < |DeclareAll(ds).symbols| && DeclareAll(ds).symbols[k].Name() == name;
        if Declares(t.symbols, NameOf(d)) || k < |t.symbols| {
          assert DeclareAll(ds).symbols[k] == t.symbols[k];
          var i :| 0 <= i < |init| && NameOf(init[i]) == name;
          assert ds[i] == init[i];
        } else {
          assert NameOf(ds[|ds| - 1]) == name;
        }
      }
    }
  }

  /** The first declaration of a name wins: a later one with the same name is the duplicate. */
  lemma {:induction false} FirstDeclarationWins(ds: seq<Declaration>, i: nat)
    requires i < |ds|
    requires forall j :: 0 <= j < i ==> NameOf(ds[j]) != NameOf(ds[i])
    ensures var f: Symbol := FunctionFor(ds[i]); Find(DeclareAll(ds).symbols, NameOf(ds[i])) == Some(f)
    decreases |ds|
  {
    var init := ds[..|ds| - 1];
    var d := ds[|ds| - 1];
    var t := DeclareAll(init);
    var name := NameOf(ds[i]);
    DeclaredNamesAreDistinct(init);
    if i == |ds| - 1 {
      DeclaredIffSomeDeclaration(init, name);
      FindAfterAdd(t.symbols, FunctionFor(d), name);
    } else {
      assert init[i] == ds[i];
      FirstDeclarationWins(init, i);
      if !Declares(t.symbols, NameOf(d)) {
        FindAfterAdd(t.symbols, FunctionFor(d), name);
      }
    }
  }

  /** The first declaration with a name, if any. */
  function FirstDeclaration(ds: seq<Declaration>, name: string): (r: Option<nat>)
    ensures r.Some? ==> r.value < |ds| && NameOf(ds[r.value]) == name && forall j :: 0 <= j < r.value ==> NameOf(ds[j]) != name
    ensures r.None? ==> forall j :: 0 <= j < |ds| ==> NameOf(ds[j]) != name
  {
    if ds == [] then None
    else if NameOf(ds[0]) == name then Some(0)
    else
      var rest := FirstDeclaration(ds[1..], name);
      assert forall j :: 0 < j < |ds| ==> ds[j] == ds[1..][j - 1];
      match rest
      case Some(k) => Some(k + 1)
      case None => None
  }

  /** A name the global table does not declare resolves among the builtins. */
  lemma ResolveBuiltins(t: seq<Symbol>, name: string)
    requires !Declares(t, name)
    ensures Resolve([t, Builtins], name) == if name == Print.name then Some(Print) else None
  {
    var frames: Frames := [t, Builtins];
    var rest: Frames := [Builtins];
    var builtins: seq<Symbol> := Builtins;
    assert frames[1..] == rest && rest[1..] == [];
    assert Find(t, name) == None;
    assert Resolve(frames, name) == Resolve(rest, name);
    assert builtins[0] == Print && builtins[1..] == [];
    assert Find(builtins, name) == if name == Print.name then Some(Print) else Find([], name);
    assert rest[0] == builtins;
    assert Resolve(rest, name) == Find(builtins, name);
  }

  /**
   * A name in a module's global scope resolves to the function of its
   * first declaration, and only a name the module does not declare falls
   * through to the builtins: a user's `Print` hides the builtin one.
   */
  lemma ResolveInModule(ds: seq<Declaration>, name: string)
    ensures Resolve([DeclareAll(ds).symbols, Builtins], name) ==
            match FirstDeclaration(ds, name)
            case Some(i) => Some(FunctionFor(ds[i]))
            case None => if name == Print.name then Some(Print) else None
  {
    var t := DeclareAll(ds).symbols;
    assert [t, Builtins][1..] == [Builtins];
    assert [Builtins][1..] == [];
    match FirstDeclaration(ds, name)
    case Some(i) =>
      FirstDeclarationWins(ds, i);
    case None =>
      DeclaredIffSomeDeclaration(ds, name);
      ResolveBuiltins(t, name);
  }

  // ---------------------------------------------------------------------
  // Modules and programs
  // ---------------------------------------------------------------------

  /** A bound module as values: its diagnostics and the tables of its global scope's chain. */
  datatype ModuleValue = ModuleValue(diagnostics: seq<Diagnostic>, frames: Frames)

  /**
   * `BindModule`: the trees' diagnostics; when one is an error, a global
   * scope with no parent and no symbols. Otherwise every function of
   * every tree declared in a scope below the builtins, with the
   * duplicates reported after the trees' diagnostics.
   */
  function ModuleBinding(trees: seq<ParsedTree>): (r: Result<ModuleValue>)
    ensures AnyError(TreeDiagnostics(trees)) ==> r == Ok(ModuleValue(TreeDiagnostics(trees), [[]]))
    ensures r.Ok? ==> |r.value.diagnostics| >= |TreeDiagnostics(trees)| && |r.value.frames| > 0
    ensures r.Ok? ==> r.value.diagnostics[..|TreeDiagnostics(trees)|] == TreeDiagnostics(trees)
    ensures r.Fatal? <==> !AnyError(TreeDiagnostics(trees)) && Declarations(trees).Fatal?
  {
    var diags := TreeDiagnostics(trees);
    if AnyError(diags) then Ok(ModuleValue(diags, [[]]))
    else
      match Declarations(trees)
      case Fatal(m) => Fatal(m)
      case Ok(ds) =>
        var t := DeclareAll(ds);
        Ok(ModuleValue(diags + t.diagnostics, [t.symbols, Builtins]))
  }

  /**
   * `BindProgram`'s body for one function: its declaration's block, bound
   * in the global scope. A function without a declaration throws.
   */
  function BodyBinding(frames: Frames, f: FunctionSym): (r: Result<Bound<FunctionBody>>)
    ensures f.declaration.None? ==> r == Fatal(MissingDeclaration)
    ensures r.Ok? ==>
      && f.declaration.Some? && r.value.node.symbol == f
      && r.value.node.body.BoundBlockStatement? && r.value.node.body.block == f.declaration.value.syntax.body
  {
    match f.declaration
    case None => Fatal(MissingDeclaration)
    case Some(d) =>
      match BlockBinding(frames, d.source, d.syntax.body)
      case Ok(b) => Ok(Bound(FunctionBody(f, b.node), b.diagnostics))
      case Fatal(m) => Fatal(m)
  }

  /** The bodies of the functions, bound in order: one body per function. */
  function BodiesBinding(frames: Frames, fs: seq<FunctionSym>): (r: Result<Bound<seq<FunctionBody>>>)
    decreases |fs|
    ensures r.Ok? ==> |r.value.node| == |fs|
  {
    if fs == [] then Ok(Bound([], []))
    else Cons(BodyBinding(frames, fs[0]), BodiesBinding(frames, fs[1..]))
  }

  /** The first function with the body table named `Main`. */
  function EntryPoint(bodies: seq<FunctionBody>): (r: Option<FunctionSym>)
    ensures r.Some? <==> exists i :: 0 <= i < |bodies| && bodies[i].symbol.name == "Main"
    ensures r.Some? ==> exists i :: 0 <= i < |bodies| && bodies[i].symbol == r.value && r.value.name == "Main"
  {
    if bodies == [] then None
    else if bodies[0].symbol.name == "Main" then Some(bodies[0].symbol)
    else
      var r := EntryPoint(bodies[1..]);
      assert forall i :: 0 < i < |bodies| ==> bodies[i] == bodies[1..][i - 1];
      assert forall i :: 0 <= i < |bodies[1..]| ==> bodies[1..][i] == bodies[i + 1];
      r
  }

  /**
   * `BindProgram`: nothing is bound for a module with errors. Otherwise
   * each function of the global scope's own table gets its body, the
   * diagnostics are those of the bodies, and the entry point is `Main`.
   */
  function ProgramBinding(diagnostics: seq<Diagnostic>, frames: Frames): (r: Result<BoundProgram>)
    requires |frames| > 0
    ensures AnyError(diagnostics) ==> r == Ok(BoundProgram(diagnostics, [], None))
    ensures !AnyError(diagnostics) && r.Ok? ==>
      && BodiesBinding(frames, FunctionsOf(frames[0])).Ok?
      && r.value.diagnostics == BodiesBinding(frames, FunctionsOf(frames[0])).value.diagnostics
      && r.value.functionBodies == BodiesBinding(frames, FunctionsOf(frames[0])).value.node
  {
    if AnyError(diagnostics) then Ok(BoundProgram(diagnostics, [], None))
    else
      match BodiesBinding(frames, FunctionsOf(frames[0]))
      case Ok(b) => Ok(BoundProgram(b.diagnostics, b.node, EntryPoint(b.node)))
      case Fatal(m) => Fatal(m)
  }

  /** Every function gets exactly one body, in the order of the table. */
  lemma {:induction false} BodiesFollowFunctions(frames: Frames, fs: seq<FunctionSym>)
    requires BodiesBinding(frames, fs).Ok?
    ensures var bs := BodiesBinding(frames, fs).value.node;
            |bs| == |fs| && forall i :: 0 <= i < |fs| ==> bs[i].symbol == fs[i]
    decreases |fs|
  {
    if fs != [] {
      BodiesFollowFunctions(frames, fs[1..]);
    }
  }

  /**
   * A program bound from a module without errors has one body per
   * function of the global table, in order, and its entry point is a
   * function of that table named `Main`, present exactly when there is one.
   */
  lemma ProgramHasEveryFunction(diagnostics: seq<Diagnostic>, frames: Frames)
    requires |frames| > 0 && !AnyError(diagnostics)
    requires ProgramBinding(diagnostics, frames).Ok?
    ensures var p := ProgramBinding(diagnostics, frames).value;
            && |p.functionBodies| == |FunctionsOf(frames[0])|
            && (forall i :: 0 <= i < |p.functionBodies| ==> p.functionBodies[i].symbol == FunctionsOf(frames[0])[i])
            && (p.entryPoint.Some? <==> exists f :: f in FunctionsOf(frames[0]) && f.name == "Main")
            && (p.entryPoint.Some? ==> p.entryPoint.value in frames[0] && p.entryPoint.value.name == "Main")
  {
    var fs := FunctionsOf(frames[0]);
    BodiesFollowFunctions(frames, fs);
    var bs := BodiesBinding(frames, fs).value.node;
    if exists f :: f in fs && f.name == "Main" {
      var f :| f in fs && f.name == "Main";
      var i :| 0 <= i < |fs| && fs[i] == f;
      assert bs[i].symbol.name == "Main";
    }
  }

  // ---------------------------------------------------------------------
  // The binder
  // ---------------------------------------------------------------------

  /** A bound module: its diagnostics and its global scope. */
  datatype BoundModule = BoundModule(diagnostics: seq<Diagnostic>, globalScope: BoundScope)

  class Binder {
    var scope: BoundScope
    const diagnostics: DiagnosticBuilder

    ghost predicate Valid()
      reads this, scope, scope.ancestors
    {
      scope.Valid()
    }

    constructor (scope: BoundScope)
      requires scope.Valid()
      ensures Valid() && this.scope == scope && fresh(diagnostics) && diagnostics.items == []
    {
      this.scope := scope;
      diagnostics := new DiagnosticBuilder();
    }

    /** `BindExpression`, as `ExpressionBinding` over the current scope's chain. */
    method BindExpression(source: SourceText, e: ExpressionSyntax) returns (r: Result<BoundExpression>)
      requires Valid()
      modifies diagnostics
      ensures Agrees(r, ExpressionBinding(scope.Frames(), source, e), old(diagnostics.items), diagnostics.items)
      decreases ExprSize(e), 2
    {
      match e
      case LiteralExpressionSyntax(_, v) =>
        r := MakeLiteral(e, v);
        AppendNothing(diagnostics.items);
      case CallExpressionSyntax(_, _, _, _) =>
        r := BindCallExpression(source, e);
      case _ =>
        r := Fatal(NotImplemented);
    }

    /** `BindCallExpression`: an error expression when the name does not resolve to a function, else the call with its arguments. */
    method BindCallExpression(source: SourceText, e: ExpressionSyntax) returns (r: Result<BoundExpression>)
      requires Valid() && e.CallExpressionSyntax?
      modifies diagnostics
      ensures Agrees(r, ExpressionBinding(scope.Frames(), source, e), old(diagnostics.items), diagnostics.items)
      decreases ExprSize(e), 1
    {
      var id := e.identifier;
      var symbol := scope.TryResolve(id.text);
      if symbol.None? {
        diagnostics.Add(UndefinedFunction, ParserSpec.TokenLocation(source, id), [TextArg(id.text)]);
        return Ok(BoundErrorExpression(e));
      }
      if !symbol.value.FunctionSymbol? {
        diagnostics.Add(NotCallable, ParserSpec.TokenLocation(source, id), [TextArg(id.text)]);
        return Ok(BoundErrorExpression(e));
      }
      var arguments := BindArguments(source, e.arguments);
      if arguments.Fatal? {
        return Fatal(arguments.reason);
      }
      r := Ok(BoundCallExpression(e, symbol.value, arguments.value));
    }

    /** The loop of `BindCallExpression`: each argument bound in order. */
    method BindArguments(source: SourceText, items: seq<ArgumentItem>) returns (r: Result<seq<BoundExpression>>)
      requires Valid()
      modifies diagnostics
      ensures Agrees(r, ArgumentsBinding(scope.Frames(), source, items), old(diagnostics.items), diagnostics.items)
      decreases ItemsSize(items), 3
    {
      ghost var frames := scope.Frames();
      var arguments: seq<BoundExpression> := [];
      ghost var added: seq<Diagnostic> := [];
      assert items[0..] == items;
      JoinedEmpty(ArgumentsBinding(frames, source, items));
      for i := 0 to |items|
        invariant diagnostics.items == old(diagnostics.items) + added
        invariant ArgumentsBinding(frames, source, items) == Joined(arguments, added, ArgumentsBinding(frames, source, items[i..]))
      {
        assert items[i..][0] == items[i] && items[i..][1..] == items[i + 1..];
        if items[i].Argument? {
          ItemSizeBound(items, i);
          var x := BindExpression(source, items[i].expression);
          if x.Fatal? {
            return Fatal(x.reason);
          }
          ghost var b := ExpressionBinding(frames, source, items[i].expression).value;
          JoinedStep(ArgumentsBinding(frames, source, items), arguments, added, ArgumentsBinding(frames, source, items[i..]),
                     b, ArgumentsBinding(frames, source, items[i + 1..]));
          AppendAssoc(old(diagnostics.items), added, b.diagnostics);
          arguments := arguments + [x.value];
          added := added + b.diagnostics;
        }
      }
      JoinedNothing(arguments, added);
      r := Ok(arguments);
    }

    /** `BindStatement`: an expression statement, or a block. The scope is restored unless binding throws. */
    method BindStatement(source: SourceText, s: StatementSyntax) returns (r: Result<BoundStatement>)
      requires Valid()
      modifies this, diagnostics
      ensures Valid() && (r.Ok? ==> scope == old(scope))
      ensures Agrees(r, StatementBinding(old(scope.Frames()), source, s), old(diagnostics.items), diagnostics.items)
      decreases StmtSize(s), 1
    {
      match s
      case ExpressionStatementSyntax(x) =>
        var e := BindExpression(source, x);
        if e.Fatal? {
          return Fatal(e.reason);
        }
        r := Ok(BoundExpressionStatement(s, e.value));
      case BlockStatementSyntax(_) =>
        r := BindBlockStatement(source, s);
    }

    /** `BindBlockStatement`: a child scope for the block's statements, popped when they are bound. */
    method BindBlockStatement(source: SourceText, b: BlockSyntax) returns (r: Result<BoundStatement>)
      requires Valid()
      modifies this, diagnostics
      ensures Valid() && (r.Ok? ==> scope == old(scope))
      ensures Agrees(r, BlockBinding(old(scope.Frames()), source, b), old(diagnostics.items), diagnostics.items)
      decreases StmtSize(b), 0
    {
      ghost var frames := scope.Frames();
      var outer := scope;
      var statements: seq<BoundStatement> := [];
      ghost var added: seq<Diagnostic> := [];
      scope := new BoundScope(scope);
      var ss := b.statements;
      assert ss[0..] == ss;
      JoinedEmpty(StatementsBinding([[]] + frames, source, ss));
      for i := 0 to |ss|
        invariant Valid() && scope.parent == outer && scope.Frames() == [[]] + frames
        invariant diagnostics.items == old(diagnostics.items) + added
        invariant StatementsBinding([[]] + frames, source, ss) == Joined(statements, added, StatementsBinding([[]] + frames, source, ss[i..]))
      {
        assert ss[i..][0] == ss[i] && ss[i..][1..] == ss[i + 1..];
        StmtSizeBound(ss, i);
        var x := BindStatement(source, ss[i]);
        if x.Fatal? {
          return Fatal(x.reason);
        }
        ghost var y := StatementBinding([[]] + frames, source, ss[i]).value;
        JoinedStep(StatementsBinding([[]] + frames, source, ss), statements, added, StatementsBinding([[]] + frames, source, ss[i..]),
                   y, StatementsBinding([[]] + frames, source, ss[i + 1..]));
        AppendAssoc(old(diagnostics.items), added, y.diagnostics);
        statements := statements + [x.value];
        added := added + y.diagnostics;
      }
      JoinedNothing(statements, added);
      scope := scope.parent;
      r := Ok(BoundBlockStatement(b, statements));
    }

    /** `BindFunctionDeclaration`: declare the function in the current scope, or report that its name is taken. */
    method BindFunctionDeclaration(d: Declaration)
      requires Valid()
      modifies scope, diagnostics
      ensures Valid()
      ensures scope.symbols == DeclareStep(old(scope.symbols), d).symbols
      ensures diagnostics.items == old(diagnostics.items) + DeclareStep(old(scope.symbols), d).diagnostics
      ensures scope.Frames() == [scope.symbols] + old(scope.Frames())[1..]
    {
      var f := FunctionSymbol(d.syntax.identifier.text, VoidType, Some(d));
      var declared := scope.TryDeclareFunction(f);
      if !declared {
        diagnostics.Add(SymbolAlreadyDeclared, ParserSpec.TokenLocation(d.source, d.syntax.identifier), [TextArg(f.name)]);
      } else {
        AppendNothing(diagnostics.items);
      }
    }

    /** `CreateRootScope`: a scope with no parent holding the builtins. */
    static method CreateRootScope() returns (root: BoundScope)
      ensures fresh(root) && root.Valid() && root.parent == null && root.symbols == Builtins
      ensures root.Frames() == [Builtins]
    {
      root := new BoundScope(null);
      for i := 0 to |Builtins|
        invariant root.Valid() && root.parent == null && root.symbols == Builtins[..i]
      {
        var declared := root.TryDeclareFunction(Builtins[i]);
        if !declared {
          assert false;
        }
      }
    }

    /** The loop of `BindModule`: every function declared in turn in the binder's scope, which starts empty. */
    method BindFunctionDeclarations(ds: seq<Declaration>)
      requires Valid() && scope.symbols == []
      modifies scope, diagnostics
      ensures Valid()
      ensures scope.symbols == DeclareAll(ds).symbols
      ensures diagnostics.items == old(diagnostics.items) + DeclareAll(ds).diagnostics
      ensures scope.Frames() == [scope.symbols] + old(scope.Frames())[1..]
    {
      AppendNothing(diagnostics.items);
      for i := 0 to |ds|
        invariant Valid()
        invariant scope.symbols == DeclareAll(ds[..i]).symbols
        invariant diagnostics.items == old(diagnostics.items) + DeclareAll(ds[..i]).diagnostics
        invariant scope.Frames() == [scope.symbols] + old(scope.Frames())[1..]
      {
        assert ds[..i + 1][..i] == ds[..i];
        ghost var t := DeclareAll(ds[..i]);
        BindFunctionDeclaration(ds[i]);
        AppendAssoc(old(diagnostics.items), t.diagnostics, DeclareStep(t.symbols, ds[i]).diagnostics);
      }
      assert ds[..|ds|] == ds;
    }

    /** `BindModule`, as `ModuleBinding`. */
    static method BindModule(trees: seq<ParsedTree>) returns (r: Result<BoundModule>)
      ensures r.Ok? <==> ModuleBinding(trees).Ok?
      ensures r.Ok? ==> r.value.globalScope.Valid()
      ensures r.Ok? ==> ModuleBinding(trees).value == ModuleValue(r.value.diagnostics, r.value.globalScope.Frames())
    {
      var rootScope := CreateRootScope();
      var scope := new BoundScope(rootScope);
      var binder := new Binder(scope);
      binder.diagnostics.AddRange(TreeDiagnostics(trees));
      EmptyThen(TreeDiagnostics(trees));
      if binder.diagnostics.HasErrors() {
        var items := binder.diagnostics.ToImmutableArray();
        var empty := new BoundScope(null);
        return Ok(BoundModule(items, empty));
      }
      var declarations := Declarations(trees);
      if declarations.Fatal? {
        return Fatal(declarations.reason);
      }
      ghost var outer := scope.Frames();
      assert outer[1..] == [Builtins];
      binder.BindFunctionDeclarations(declarations.value);
      ghost var t := DeclareAll(declarations.value);
      assert scope.Frames() == [t.symbols, Builtins];
      assert ModuleBinding(trees) == Ok(ModuleValue(TreeDiagnostics(trees) + t.diagnostics, [t.symbols, Builtins]));
      var items := binder.diagnostics.ToImmutableArray();
      r := Ok(BoundModule(items, binder.scope));
    }

    /** One iteration of `BindProgram`'s loop: a fresh binder over the global scope binds the function's declared body. */
    static method BindFunctionBody(globalScope: BoundScope, f: FunctionSym) returns (r: Result<Bound<FunctionBody>>)
      requires globalScope.Valid()
      ensures r == BodyBinding(globalScope.Frames(), f)
    {
      ghost var frames := globalScope.Frames();
      var binder := new Binder(globalScope);
      if f.declaration.None? {
        return Fatal(MissingDeclaration);
      }
      var declaration := f.declaration.value;
      var body := binder.BindBlockStatement(declaration.source, declaration.syntax.body);
      if body.Fatal? {
        return Fatal(body.reason);
      }
      EmptyThen(BlockBinding(frames, declaration.source, declaration.syntax.body).value.diagnostics);
      var items := binder.diagnostics.ToImmutableArray();
      r := Ok(Bound(FunctionBody(f, body.value), items));
    }

    /** The loop of `BindProgram`: each function's body, its diagnostics added to `diagnostics`. */
    static method BindFunctionBodies(globalScope: BoundScope, functions: seq<FunctionSym>, diagnostics: DiagnosticBuilder)
      returns (r: Result<seq<FunctionBody>>)
      requires globalScope.Valid()
      modifies diagnostics
      ensures Agrees(r, BodiesBinding(globalScope.Frames(), functions), old(diagnostics.items), diagnostics.items)
    {
      ghost var frames := globalScope.Frames();
      var bodies: seq<FunctionBody> := [];
      ghost var added: seq<Diagnostic> := [];
      assert functions[0..] == functions;
      JoinedEmpty(BodiesBinding(frames, functions));
      for i := 0 to |functions|
        invariant diagnostics.items == old(diagnostics.items) + added
        invariant BodiesBinding(frames, functions) == Joined(bodies, added, BodiesBinding(frames, functions[i..]))
      {
        assert functions[i..][0] == functions[i] && functions[i..][1..] == functions[i + 1..];
        var bound := BindFunctionBody(globalScope, functions[i]);
        if bound.Fatal? {
          return Fatal(bound.reason);
        }
        JoinedStep(BodiesBinding(frames, functions), bodies, added, BodiesBinding(frames, functions[i..]),
                   bound.value, BodiesBinding(frames, functions[i + 1..]));
        AppendAssoc(old(diagnostics.items), added, bound.value.diagnostics);
        bodies := bodies + [bound.value.node];
        added := added + bound.value.diagnostics;
        diagnostics.AddRange(bound.value.diagnostics);
      }
      JoinedNothing(bodies, added);
      r := Ok(bodies);
    }

    /** `BindProgram`, as `ProgramBinding` over the module's global scope. */
    static method BindProgram(m: BoundModule) returns (r: Result<BoundProgram>)
      requires m.globalScope.Valid()
      ensures r == ProgramBinding(m.diagnostics, m.globalScope.Frames())
    {
      if AnyError(m.diagnostics) {
        return Ok(BoundProgram(m.diagnostics, [], None));
      }
      var diagnostics := new DiagnosticBuilder();
      var functions := m.globalScope.GetDeclaredFunctions();
      var bodies := BindFunctionBodies(m.globalScope, functions, diagnostics);
      if bodies.Fatal? {
        return Fatal(bodies.reason);
      }
      EmptyThen(BodiesBinding(m.globalScope.Frames(), functions).value.diagnostics);
      var items := diagnostics.ToImmutableArray();
      r := Ok(BoundProgram(items, bodies.value, EntryPoint(bodies.value)));
    }
  }
}
