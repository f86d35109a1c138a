/**
 * Symbols: the types and functions the binder declares in scopes and
 * resolves names to, and the list of builtin functions.
 */
module Symbols {
  import opened Wrappers
  import opened Text
  import opened Syntax

  /** A type, known by its name; `Format` is the name. */
  datatype TypeSymbol = TypeSymbol(name: string)

  const ErrorType := TypeSymbol("<error>")
  const StringType := TypeSymbol("string")
  const VoidType := TypeSymbol("void")

  /**
   * The syntax a user function was declared by. A syntax node knows the
   * tree it belongs to, so the declaration carries that tree's text.
   */
  datatype Declaration = Declaration(source: SourceText, syntax: FunctionDeclarationSyntax)

  /** Every symbol has a name; a function also has a return type and, unless it is a builtin, its declaration. */
  datatype Symbol =
    | FunctionSymbol(name: string, returnType: TypeSymbol, declaration: Option<Declaration>)
    | TypeSymbolEntry(typeSymbol: TypeSymbol)
  {
    function Name(): string {
      if FunctionSymbol? then name else typeSymbol.name
    }
  }

  /** A symbol that is a function, as function tables, bound calls and function bodies hold. */
  type FunctionSym = s: Symbol | s.FunctionSymbol? witness FunctionSymbol("", VoidType, None)

  /** The one builtin: `Print`, returning `void`. */
  const Print := FunctionSymbol("Print", VoidType, None)

  /** `BuiltinFunctions.GetAll`, as the explicit list of the builtins. */
  const Builtins: seq<FunctionSym> := [Print]
}
