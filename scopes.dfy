/**
 * `BoundScope`: a table from names to symbols with an optional parent
 * scope. A name is declared at most once per table; a lookup tries the
 * scope's own table first and then its parent's, so the nearest
 * declaration wins.
 */
module Scopes {
  import opened Wrappers
  import opened Symbols

  // ---------------------------------------------------------------------
  // One table
  // ---------------------------------------------------------------------

  /** No two symbols of a table share a name. */
  predicate DistinctNames(ss: seq<Symbol>) {
    forall i, j :: 0 <= i < j < |ss| ==> ss[i].Name() != ss[j].Name()
  }

  /** `name` is declared in the table. */
  predicate Declares(ss: seq<Symbol>, name: string) {
    exists i :: 0 <= i < |ss| && ss[i].Name() == name
  }

  /** `TryGetValue` on one table: the first symbol with the name. */
  function Find(ss: seq<Symbol>, name: string): (r: Option<Symbol>)
    ensures r.Some? <==> Declares(ss, name)
    ensures r.Some? ==> r.value in ss && r.value.Name() == name
  {
    if ss == [] then None
    else if ss[0].Name() == name then Some(ss[0])
    else
      var r := Find(ss[1..], name);
      assert Declares(ss, name) ==> Declares(ss[1..], name) by {
        if Declares(ss, name) {
          var i :| 0 <= i < |ss| && ss[i].Name() == name;
          assert ss[1..][i - 1] == ss[i];
        }
      }
      r
  }

  /** In a table with distinct names, a name's symbol is the one at its index. */
  lemma {:induction false} FindIndexed(ss: seq<Symbol>, i: nat)
    requires DistinctNames(ss) && i < |ss|
    ensures Find(ss, ss[i].Name()) == Some(ss[i])
  {
    if i > 0 {
      assert DistinctNames(ss[1..]) by {
        forall a, b | 0 <= a < b < |ss[1..]| ensures ss[1..][a].Name() != ss[1..][b].Name() {
          assert ss[1..][a] == ss[a + 1] && ss[1..][b] == ss[b + 1];
        }
      }
      assert ss[1..][i - 1] == ss[i];
      FindIndexed(ss[1..], i - 1);
    }
  }

  /** Adding a symbol under a new name: it is found under that name, and every other name as before. */
  lemma {:induction false} FindAfterAdd(ss: seq<Symbol>, s: Symbol, name: string)
    requires !Declares(ss, s.Name())
    ensures Find(ss + [s], name) == if name == s.Name() then Some(s) else Find(ss, name)
    decreases |ss|
  {
    if ss == [] {
      assert ([] + [s])[1..] == [];
    } else {
      assert (ss + [s])[1..] == ss[1..] + [s];
      if ss[0].Name() != name {
        FindAfterAdd(ss[1..], s, name);
      }
    }
  }

  /** The function symbols of a table, in declaration order. */
  function FunctionsOf(ss: seq<Symbol>): (r: seq<FunctionSym>)
    ensures forall s :: s in r <==> s in ss && s.FunctionSymbol?
    ensures |r| <= |ss|
  {
    if ss == [] then []
    else
      var rest := FunctionsOf(ss[1..]);
      assert forall s :: s in ss <==> s == ss[0] || s in ss[1..];
      if ss[0].FunctionSymbol? then [ss[0]] + rest else rest
  }

  /** A table all of whose symbols are functions lists them all, in order. */
  lemma {:induction false} FunctionsOfFunctions(ss: seq<Symbol>)
    requires forall i :: 0 <= i < |ss| ==> ss[i].FunctionSymbol?
    ensures FunctionsOf(ss) == ss
  {
    if ss != [] {
      FunctionsOfFunctions(ss[1..]);
      assert ss == [ss[0]] + ss[1..];
    }
  }

  // ---------------------------------------------------------------------
  // A chain of tables
  // ---------------------------------------------------------------------

  /**
   * `TryResolve` over the tables of a scope and its ancestors, innermost
   * first: the symbol of the first table that declares the name.
   */
  function Resolve(frames: seq<seq<Symbol>>, name: string): (r: Option<Symbol>)
    ensures r.Some? ==> r.value.Name() == name
    ensures r.Some? ==> exists i :: 0 <= i < |frames| && r.value in frames[i]
  {
    if frames == [] then None
    else
      match Find(frames[0], name)
      case Some(s) => Some(s)
      case None =>
        var r := Resolve(frames[1..], name);
        assert r.Some? ==> exists i :: 0 <= i < |frames| && r.value in frames[i] by {
          if r.Some? {
            var i :| 0 <= i < |frames[1..]| && r.value in frames[1..][i];
            assert frames[i + 1] == frames[1..][i];
          }
        }
        r
  }

  /** A name resolves exactly when some table of the chain declares it. */
  lemma {:induction false} ResolveFindsDeclared(frames: seq<seq<Symbol>>, name: string)
    ensures Resolve(frames, name).Some? <==> exists i :: 0 <= i < |frames| && Declares(frames[i], name)
  {
    if frames != [] {
      ResolveFindsDeclared(frames[1..], name);
      if exists i :: 0 <= i < |frames| && Declares(frames[i], name) {
        var i :| 0 <= i < |frames| && Declares(frames[i], name);
        if i > 0 {
          assert frames[1..][i - 1] == frames[i];
        }
      }
      if exists i :: 0 <= i < |frames[1..]| && Declares(frames[1..][i], name) {
        var i :| 0 <= i < |frames[1..]| && Declares(frames[1..][i], name);
        assert frames[i + 1] == frames[1..][i];
      }
    }
  }

  /** The nearest declaration wins: the table of the first scope that declares the name decides. */
  lemma {:induction false} ResolveNearest(frames: seq<seq<Symbol>>, name: string, k: nat)
    requires k < |frames| && Declares(frames[k], name)
    requires forall j :: 0 <= j < k ==> !Declares(frames[j], name)
    ensures Resolve(frames, name) == Find(frames[k], name)
  {
    if k > 0 {
      assert !Declares(frames[0], name);
      forall j | 0 <= j < k - 1 ensures !Declares(frames[1..][j], name) {
        assert frames[1..][j] == frames[j + 1];
      }
      assert frames[1..][k - 1] == frames[k];
      ResolveNearest(frames[1..], name, k - 1);
    }
  }

  /** An inner table that declares nothing does not change what a name resolves to. */
  lemma EmptyTableIsTransparent(frames: seq<seq<Symbol>>, name: string)
    ensures Resolve([[]] + frames, name) == Resolve(frames, name)
  {
    assert ([[]] + frames)[1..] == frames;
  }

  /** A declaration in an inner table hides every outer declaration of its name. */
  lemma InnerShadowsOuter(inner: seq<Symbol>, outer: seq<seq<Symbol>>, s: Symbol)
    requires s in inner && DistinctNames(inner)
    ensures Resolve([inner] + outer, s.Name()) == Some(s)
  {
    var i :| 0 <= i < |inner| && inner[i] == s;
    FindIndexed(inner, i);
  }

  // ---------------------------------------------------------------------
  // The scope object
  // ---------------------------------------------------------------------

  class BoundScope {
    const parent: BoundScope?
    var symbols: seq<Symbol>
    /** How many ancestors the scope has. */
    ghost const depth: nat
    /** The parent, its parent, and so on. */
    ghost const ancestors: set<BoundScope>

    /** The ancestors are the parent chain, each shallower than this scope; every table has distinct names. */
    ghost predicate Valid()
      reads this, ancestors
      decreases depth
    {
      && DistinctNames(symbols)
      && (forall a :: a in ancestors ==> a.depth < depth)
      && (parent == null ==> depth == 0 && ancestors == {})
      && (parent != null ==>
            && ancestors == {parent} + parent.ancestors
            && parent.depth < depth
            && parent.Valid())
    }

    /** The tables of this scope and its ancestors, innermost first. */
    ghost function Frames(): (r: seq<seq<Symbol>>)
      requires Valid()
      reads this, ancestors
      decreases depth
      ensures |r| > 0 && r[0] == symbols
    {
      [symbols] + (if parent == null then [] else parent.Frames())
    }

    /** A scope with an empty table below `parent`; the parent and its tables are unchanged. */
    constructor (parent: BoundScope?)
      requires parent != null ==> parent.Valid()
      ensures Valid() && this.parent == parent && symbols == []
      ensures Frames() == [[]] + (if parent == null then [] else parent.Frames())
    {
      this.parent := parent;
      symbols := [];
      depth := if parent == null then 0 else parent.depth + 1;
      ancestors := if parent == null then {} else {parent} + parent.ancestors;
    }

    /**
     * `TryDeclare`: false, and nothing changes, when the name is already
     * in this scope's own table; otherwise the symbol is added. The
     * ancestors' tables never change.
     */
    method TryDeclare(symbol: Symbol) returns (ok: bool)
      requires Valid()
      modifies this
      ensures Valid()
      ensures ok <==> !Declares(old(symbols), symbol.Name())
      ensures symbols == if ok then old(symbols) + [symbol] else old(symbols)
      ensures Frames() == [symbols] + old(Frames())[1..]
    {
      if Find(symbols, symbol.Name()).Some? {
        return false;
      }
      symbols := symbols + [symbol];
      ok := true;
    }

    /** `TryDeclareFunction`: `TryDeclare` of a function symbol. */
    method TryDeclareFunction(f: Symbol) returns (ok: bool)
      requires Valid() && f.FunctionSymbol?
      modifies this
      ensures Valid()
      ensures ok <==> !Declares(old(symbols), f.name)
      ensures symbols == if ok then old(symbols) + [f] else old(symbols)
      ensures Frames() == [symbols] + old(Frames())[1..]
    {
      ok := TryDeclare(f);
    }

    /** `GetDeclaredFunctions`: the function symbols of this scope's own table, not its ancestors'. */
    function GetDeclaredFunctions(): (r: seq<FunctionSym>)
      reads this
      ensures forall s :: s in r <==> s in symbols && s.FunctionSymbol?
    {
      FunctionsOf(symbols)
    }

    /** `TryResolve`: the symbol of the nearest scope, this one first, that declares the name. */
    function TryResolve(name: string): (r: Option<Symbol>)
      requires Valid()
      reads this, ancestors
      decreases depth
      ensures r == Resolve(Frames(), name)
    {
      match Find(symbols, name)
      case Some(s) => Some(s)
      case None => if parent == null then None else parent.TryResolve(name)
    }
  }
}
