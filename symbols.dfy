/**
 * The scoped symbol table (part16 symbols.rs).
 *
 * A `ScopedSymbolTable` owns its name-to-symbol map and the scope that
 * encloses it; the chain of enclosing scopes, innermost first, is its
 * abstract value `Frames()`. `ChainLookup` states over that sequence what
 * `lookup` finds.
 */
module Symbols {
  import opened Wrappers
  import opened Tokens
  import opened Syntax

  datatype Symbol =
    | BuiltIn(name: string)
    | VarSymbol(name: string, kind: VarType)
    | ProcedureSymbol(name: string, params: seq<Param>)
  {
    /** `Symbol::name`: the key the symbol is stored under. */
    function Name(): (n: string)
      ensures n == name
    {
      match this
      case BuiltIn(name) => name
      case VarSymbol(name, _) => name
      case ProcedureSymbol(name, _) => name
    }
  }

  /** One scope of the chain: its name, its level, and its own symbols. */
  datatype Frame = Frame(name: string, level: nat, table: map<string, Symbol>)

  /** The builtin type symbols every level-1 scope starts with. */
  const Builtins: map<string, Symbol> := map[
    "INTEGER" := BuiltIn("INTEGER"),
    "REAL" := BuiltIn("REAL")
  ]

  /** The table a new scope starts with: the builtins at level 1, nothing at any other level. */
  function InitialTable(level: nat): (t: map<string, Symbol>)
    ensures level == 1 ==> t.Keys == {"INTEGER", "REAL"} && forall k | k in t :: t[k] == BuiltIn(k)
    ensures level != 1 ==> t == map[]
  {
    if level == 1 then Builtins else map[]
  }

  /** A frame after `insert(s)`: `s` under its own name, replacing any entry of that name. */
  function Inserted(f: Frame, s: Symbol): (g: Frame)
    ensures g.name == f.name && g.level == f.level
    ensures g.table.Keys == f.table.Keys + {s.name} && g.table[s.name] == s
    ensures forall k | k in f.table && k != s.name :: g.table[k] == f.table[k]
  {
    f.(table := f.table[s.Name() := s])
  }

  /**
   * `lookup` does not panic: whenever the name is missing from a scope, that
   * scope has an enclosing scope, and the search goes on there unless the
   * enclosing scope is at level 0.
   */
  predicate CanLookup(fs: seq<Frame>, n: string): (b: bool)
    ensures |fs| > 0 && n in fs[0].table ==> b
    ensures b ==> |fs| > 0 && (n !in fs[0].table ==> |fs| > 1)
    decreases |fs|
  {
    |fs| > 0 && (n !in fs[0].table ==> |fs| > 1 && (fs[1].level != 0 ==> CanLookup(fs[1..], n)))
  }

  /**
   * What `lookup(n)` finds from the innermost scope of `fs`: the entry of the
   * first scope that has one, searching outward and never entering a scope of
   * level 0.
   */
  function ChainLookup(fs: seq<Frame>, n: string): (r: Option<Symbol>)
    requires CanLookup(fs, n)
    ensures n in fs[0].table ==> r == Some(fs[0].table[n])
    decreases |fs|
  {
    if n in fs[0].table then Some(fs[0].table[n])
    else if fs[1].level != 0 then ChainLookup(fs[1..], n)
    else None
  }

  /**
   * The shape of scope chain the semantic analyzer keeps: it ends in the one
   * scope of level 0 (the root), and every other scope has a level above 0.
   */
  predicate Scopes(fs: seq<Frame>)
    decreases |fs|
  {
    |fs| > 0 && (if |fs| == 1 then fs[0].level == 0 else fs[0].level != 0 && Scopes(fs[1..]))
  }

  class ScopedSymbolTable {
    var table: map<string, Symbol>
    const scopeName: string
    const scopeLevel: nat
    var enclosingScope: ScopedSymbolTable?
    ghost var Repr: set<object>

    /** The table owns the chain of enclosing scopes: no scope is shared, and there is no cycle. */
    ghost predicate Valid()
      reads this, Repr
      decreases Repr
    {
      && this in Repr
      && (enclosingScope == null ==> Repr == {this})
      && (enclosingScope != null ==>
            && enclosingScope in Repr && Repr == {this} + enclosingScope.Repr
            && this !in enclosingScope.Repr && enclosingScope.Valid())
    }

    /** The scope chain, innermost first. */
    ghost function Frames(): (fs: seq<Frame>)
      reads this, Repr
      requires Valid()
      ensures |fs| > 0 && fs[0] == Frame(scopeName, scopeLevel, table)
      decreases Repr
    {
      [Frame(scopeName, scopeLevel, table)] + (if enclosingScope == null then [] else enclosingScope.Frames())
    }

    /** `ScopedSymbolTable::new`: no enclosing scope; a level-1 scope starts with INTEGER and REAL. */
    constructor(scopeName: string, scopeLevel: nat)
      ensures Valid() && fresh(Repr) && enclosingScope == null
      ensures Frames() == [Frame(scopeName, scopeLevel, InitialTable(scopeLevel))]
    {
      this.scopeName := scopeName;
      this.scopeLevel := scopeLevel;
      table := map[];
      enclosingScope := null;
      Repr := {this};
      new;
      if scopeLevel == 1 {
        Insert(BuiltIn(TypeNameText(IntegerType)));
        Insert(BuiltIn(TypeNameText(RealType)));
      }
    }

    /** `enclosing_scope`: takes the enclosing scope out of this one (the source unwraps it). */
    method EnclosingScope() returns (p: ScopedSymbolTable)
      requires Valid() && enclosingScope != null
      modifies this
      ensures p == old(enclosingScope) && enclosingScope == null
      ensures Valid() && Frames() == [old(Frames())[0]]
      ensures p.Valid() && p.Frames() == old(Frames())[1..] && p.Repr == old(Repr) - {this}
    {
      p := enclosingScope;
      enclosingScope := null;
      Repr := {this};
    }

    /** `set_enclosing_scope`: `p` becomes the enclosing scope; it is moved in, so it is not shared. */
    method SetEnclosingScope(p: ScopedSymbolTable)
      requires Valid() && p.Valid() && this !in p.Repr
      modifies this
      ensures enclosingScope == p && Repr == {this} + p.Repr
      ensures Valid() && Frames() == [old(Frames())[0]] + p.Frames()
    {
      enclosingScope := p;
      Repr := {this} + p.Repr;
    }

    /** `scope_level`. */
    function ScopeLevel(): (l: nat)
      reads this, Repr
      requires Valid()
      ensures l == Frames()[0].level
    {
      scopeLevel
    }

    /** `insert`: only this scope's own table changes; the enclosing scopes do not. */
    method Insert(s: Symbol)
      requires Valid()
      modifies this
      ensures Valid() && Repr == old(Repr) && enclosingScope == old(enclosingScope)
      ensures Frames() == [Inserted(old(Frames())[0], s)] + old(Frames())[1..]
    {
      table := table[s.Name() := s];
    }

    /** `lookup`: the search of the whole chain that `ChainLookup` describes. */
    function Lookup(n: string): (r: Option<Symbol>)
      reads this, Repr
      requires Valid() && CanLookup(Frames(), n)
      ensures r == ChainLookup(Frames(), n)
      decreases Repr
    {
      if n in table then Some(table[n])
      else if enclosingScope.scopeLevel != 0 then enclosingScope.Lookup(n)
      else None
    }

    /** `lookup_current_only`: this scope's own table, and nothing else. */
    function LookupCurrentOnly(n: string): (r: Option<Symbol>)
      reads this, Repr
      requires Valid()
      ensures r.Some? <==> n in Frames()[0].table
      ensures r.Some? ==> r.value == Frames()[0].table[n]
    {
      if n in table then Some(table[n]) else None
    }
  }
}
