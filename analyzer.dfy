/**
 * The semantic analyzer (part15 semantic.rs): one walk over the tree that
 * keeps a chain of scopes, declares names in the innermost one and checks
 * that every name used is declared.
 *
 * `Analyze` states what `visit_node` does to the scope chain, as a function
 * of the chain it starts from; the class `SemanticAnalyzer` is the walk
 * itself, over `Symbols.ScopedSymbolTable` objects, and is proved to compute
 * `Analyze`.
 */
module Semantic {
  import opened Wrappers
  import opened Tokens
  import opened Syntax
  import opened Symbols
  import opened SymbolProperties

  /** The scope chain after a visit, innermost first, and whether the visit succeeded. */
  datatype Analysis = Analysis(frames: seq<Frame>, outcome: Outcome<Error>)

  /** The root scope the analyzer starts in. */
  const Root: Frame := Frame("None", 0, map[])

  /** A new scope, as `ScopedSymbolTable::new` makes it. */
  function NewFrame(name: string, level: nat): (f: Frame)
    ensures f.name == name && f.level == level && f.table == InitialTable(level)
  {
    Frame(name, level, InitialTable(level))
  }

  /** A successful visit leaves the chain as deep as it found it, with the same innermost scope name and level and the same enclosing scopes. */
  predicate SameStack(after: seq<Frame>, before: seq<Frame>)
  {
    && |after| == |before| > 0
    && after[1..] == before[1..]
    && after[0].name == before[0].name
    && after[0].level == before[0].level
  }

  /** Replacing the innermost scope by one of the same level keeps the shape of the chain. */
  lemma ScopesHead(fs: seq<Frame>, g: Frame)
    requires Scopes(fs) && |fs| >= 2 && g.level == fs[0].level
    ensures Scopes([g] + fs[1..]) && |[g] + fs[1..]| == |fs|
  {
    assert ([g] + fs[1..])[1..] == fs[1..];
  }

  /** Opening a scope of a level above 0 inside a chain keeps the shape of the chain. */
  lemma ScopesPush(g: Frame, fs: seq<Frame>)
    requires Scopes(fs) && g.level != 0
    ensures Scopes([g] + fs) && |[g] + fs| >= 2
  {
    assert ([g] + fs)[1..] == fs;
  }

  /** The parameters of a procedure, each inserted as a variable into its scope, in order. */
  function AddParams(f: Frame, ps: seq<Param>): (g: Frame)
    ensures g.name == f.name && g.level == f.level
    ensures g.table.Keys == f.table.Keys + set p | p in ps :: p.id
    decreases |ps|
  {
    if ps == [] then f else AddParams(Inserted(f, VarSymbol(ps[0].id, ps[0].ttype)), ps[1..])
  }

  /**
   * One call of `visit_node` on `node` from the chain `fs`. The analysis
   * stops at the first error, leaving the chain as it is at that point:
   * the scopes opened on the way are not closed.
   */
  function Analyze(node: Ast, fs: seq<Frame>): (a: Analysis)
    requires Scopes(fs) && (|fs| >= 2 || node.Program?)
    ensures Scopes(a.frames) && |a.frames| >= |fs|
    ensures a.outcome.Pass? ==> SameStack(a.frames, fs)
    decreases node, 1
  {
    match node
    case Program(_, _) => AnalyzeProgram(node, fs)
    case Block(_, _) => AnalyzeBlock(node, fs)
    case Compound(children) => AnalyzeAll(children, fs)
    case ProcedureDecl(_, _, _) => AnalyzeProcedure(node, fs)
    case Assign(_, _, _) => AnalyzeOperands(node, fs)
    case BinOp(_, _, _) => AnalyzeOperands(node, fs)
    case VarDecl(_, _, _) => AnalyzeVarDecl(node, fs)
    case Var(_, _) => AnalyzeVar(node, fs)
    case NumInteger(_) => Analysis(fs, Pass)
    case NumReal(_) => Analysis(fs, Pass)
    case UnaryOp(_, _) => Analysis(fs, Pass)
    case NoOp => Analysis(fs, Pass)
  }

  /** The Block arm: the declarations in order, then the compound statement. */
  function AnalyzeBlock(node: Ast, fs: seq<Frame>): (a: Analysis)
    requires node.Block? && Scopes(fs) && |fs| >= 2
    ensures Scopes(a.frames) && |a.frames| >= |fs|
    ensures a.outcome.Pass? ==> SameStack(a.frames, fs)
    decreases node, 0
  {
    var a := AnalyzeAll(node.declarations, fs);
    if a.outcome.Fail? then a else Analyze(node.compound, a.frames)
  }

  /** The Assign and BinOp arms: the right operand first, then the left one. */
  function AnalyzeOperands(node: Ast, fs: seq<Frame>): (a: Analysis)
    requires (node.Assign? || node.BinOp?) && Scopes(fs) && |fs| >= 2
    ensures Scopes(a.frames) && |a.frames| >= |fs|
    ensures a.outcome.Pass? ==> SameStack(a.frames, fs)
    decreases node, 0
  {
    var a := Analyze(node.right, fs);
    if a.outcome.Fail? then a else Analyze(node.left, a.frames)
  }

  /** The VarDecl arm: a name already in the current scope is a duplicate; otherwise it is declared there. */
  function AnalyzeVarDecl(node: Ast, fs: seq<Frame>): (a: Analysis)
    requires node.VarDecl? && Scopes(fs) && |fs| >= 2
    ensures Scopes(a.frames) && |a.frames| >= |fs|
    ensures a.outcome.Pass? ==> SameStack(a.frames, fs)
  {
    if node.id in fs[0].table then Analysis(fs, Fail(DuplicateId(node.token)))
    else Analysis([Inserted(fs[0], VarSymbol(node.id, node.varType))] + fs[1..], Pass)
  }

  /** The Var arm: a name that lookup does not find is reported. */
  function AnalyzeVar(node: Ast, fs: seq<Frame>): (a: Analysis)
    requires node.Var? && Scopes(fs) && |fs| >= 2
    ensures a.frames == fs
  {
    ScopesCanLookup(fs, node.id);
    if ChainLookup(fs, node.id).None? then Analysis(fs, Fail(IdNotFound(node.token))) else Analysis(fs, Pass)
  }

  /**
   * The Program arm: the scope "global" (level 1, with the builtins) is
   * opened inside the current one for the block, and closed after it.
   */
  function AnalyzeProgram(node: Ast, fs: seq<Frame>): (a: Analysis)
    requires node.Program? && Scopes(fs)
    ensures Scopes(a.frames) && |a.frames| >= |fs|
    ensures a.outcome.Pass? ==> a.frames == fs
    decreases node, 0
  {
    var a := Analyze(node.block, [NewFrame("global", 1)] + fs);
    if a.outcome.Fail? then a else Analysis(a.frames[1..], Pass)
  }

  /**
   * The chain a procedure's body is analyzed in: the procedure's symbol is
   * added to the current scope, and a scope one level deeper, named after
   * the procedure and holding its parameters, is opened inside it.
   */
  function BodyChain(node: Ast, fs: seq<Frame>): (ch: seq<Frame>)
    requires node.ProcedureDecl? && Scopes(fs) && |fs| >= 2
    ensures Scopes(ch) && |ch| == |fs| + 1 && ch[2..] == fs[1..]
    ensures ch[1] == Inserted(fs[0], ProcedureSymbol(node.id, node.params))
    ensures ch[0] == AddParams(NewFrame(node.id, fs[0].level + 1), node.params)
  {
    var outer := Inserted(fs[0], ProcedureSymbol(node.id, node.params));
    var inner := AddParams(NewFrame(node.id, fs[0].level + 1), node.params);
    var outerChain := [outer] + fs[1..];
    ScopesHead(fs, outer);
    ScopesPush(inner, outerChain);
    [inner] + outerChain
  }

  /**
   * The ProcedureDecl arm: the body is analyzed in `BodyChain`, and the
   * procedure's own scope is closed after it.
   */
  function AnalyzeProcedure(node: Ast, fs: seq<Frame>): (a: Analysis)
    requires node.ProcedureDecl? && Scopes(fs) && |fs| >= 2
    ensures Scopes(a.frames) && |a.frames| >= |fs|
    ensures a.outcome.Pass? ==> a.frames == [Inserted(fs[0], ProcedureSymbol(node.id, node.params))] + fs[1..]
    decreases node, 0
  {
    var a := Analyze(node.body, BodyChain(node, fs));
    if a.outcome.Fail? then a else Analysis(a.frames[1..], Pass)
  }

  /** The nodes `ns` visited in order, stopping at the first error. */
  function AnalyzeAll(ns: seq<Ast>, fs: seq<Frame>): (a: Analysis)
    requires Scopes(fs) && |fs| >= 2
    ensures Scopes(a.frames) && |a.frames| >= |fs|
    ensures a.outcome.Pass? ==> SameStack(a.frames, fs)
    decreases ns, 0
  {
    if ns == [] then Analysis(fs, Pass)
    else
      var a := Analyze(ns[0], fs);
      if a.outcome.Fail? then a else AnalyzeAll(ns[1..], a.frames)
  }

  class SemanticAnalyzer {
    var currentScope: ScopedSymbolTable

    /** The analyzer owns its scope chain, which does not contain the analyzer itself. */
    ghost predicate Valid()
      reads this, currentScope, currentScope.Repr
    {
      currentScope.Valid() && this !in currentScope.Repr
    }

    /** The scope chain, innermost (current) scope first. */
    ghost function Frames(): seq<Frame>
      reads this, currentScope, currentScope.Repr
      requires Valid()
    {
      currentScope.Frames()
    }

    /** `SemanticAnalyzer::new`: the current scope is the root, "None" at level 0. */
    constructor()
      ensures Valid() && Frames() == [Root]
    {
      currentScope := new ScopedSymbolTable("None", 0);
    }

    /** `visit_node`: proved to compute `Analyze`. */
    method VisitNode(node: Ast) returns (r: Outcome<Error>)
      requires Valid() && Scopes(Frames()) && (|Frames()| >= 2 || node.Program?)
      modifies this, currentScope.Repr
      ensures Valid() && fresh(currentScope.Repr - old(currentScope.Repr))
      ensures Analysis(Frames(), r) == Analyze(node, old(Frames()))
      decreases node, 1
    {
      match node
      case Program(_, _) =>
        r := VisitProgram(node);
      case Block(_, _) =>
        r := VisitBlock(node);
      case Compound(children) =>
        r := VisitAll(children);
      case ProcedureDecl(_, _, _) =>
        r := VisitProcedure(node);
      case Assign(_, _, _) =>
        r := VisitOperands(node);
      case BinOp(_, _, _) =>
        r := VisitOperands(node);
      case VarDecl(_, _, _) =>
        r := VisitVarDecl(node);
      case Var(_, _) =>
        r := VisitVar(node);
      case NumInteger(_) =>
        r := Pass;
      case NumReal(_) =>
        r := Pass;
      case UnaryOp(_, _) =>
        r := Pass;
      case NoOp =>
        r := Pass;
    }

    /** The Block arm: the declarations in order, then the compound statement. */
    method VisitBlock(node: Ast) returns (r: Outcome<Error>)
      requires node.Block? && Valid() && Scopes(Frames()) && |Frames()| >= 2
      modifies this, currentScope.Repr
      ensures Valid() && fresh(currentScope.Repr - old(currentScope.Repr))
      ensures Analysis(Frames(), r) == AnalyzeBlock(node, old(Frames()))
      decreases node, 0
    {
      r := VisitAll(node.declarations);
      if r.Fail? {
        return;
      }
      r := VisitNode(node.compound);
    }

    /** The Assign and BinOp arms: the right operand first, then the left one. */
    method VisitOperands(node: Ast) returns (r: Outcome<Error>)
      requires (node.Assign? || node.BinOp?) && Valid() && Scopes(Frames()) && |Frames()| >= 2
      modifies this, currentScope.Repr
      ensures Valid() && fresh(currentScope.Repr - old(currentScope.Repr))
      ensures Analysis(Frames(), r) == AnalyzeOperands(node, old(Frames()))
      decreases node, 0
    {
      r := VisitNode(node.right);
      if r.Fail? {
        return;
      }
      r := VisitNode(node.left);
    }

    /** The VarDecl arm: a name already in the current scope is a duplicate; otherwise it is declared there. */
    method VisitVarDecl(node: Ast) returns (r: Outcome<Error>)
      requires node.VarDecl? && Valid() && Scopes(Frames()) && |Frames()| >= 2
      modifies currentScope
      ensures Valid() && currentScope == old(currentScope) && currentScope.Repr == old(currentScope.Repr)
      ensures Analysis(Frames(), r) == AnalyzeVarDecl(node, old(Frames()))
    {
      ScopesCanLookup(Frames(), TypeNameText(node.varType));
      var typeSymbol := currentScope.Lookup(TypeNameText(node.varType));
      var existing := currentScope.LookupCurrentOnly(node.id);
      if existing.Some? {
        return Fail(DuplicateId(node.token));
      }
      currentScope.Insert(VarSymbol(node.id, node.varType));
      r := Pass;
    }

    /** The Var arm: a name that lookup does not find is reported. */
    method VisitVar(node: Ast) returns (r: Outcome<Error>)
      requires node.Var? && Valid() && Scopes(Frames()) && |Frames()| >= 2
      ensures Analysis(Frames(), r) == AnalyzeVar(node, Frames())
    {
      ScopesCanLookup(Frames(), node.id);
      var symbol := currentScope.Lookup(node.id);
      if symbol.None? {
        return Fail(IdNotFound(node.token));
      }
      r := Pass;
    }

    /** The `for` loops over a block's declarations and a compound's children: in order, up to the first error. */
    method VisitAll(ns: seq<Ast>) returns (r: Outcome<Error>)
      requires Valid() && Scopes(Frames()) && |Frames()| >= 2
      modifies this, currentScope.Repr
      ensures Valid() && fresh(currentScope.Repr - old(currentScope.Repr))
      ensures Analysis(Frames(), r) == AnalyzeAll(ns, old(Frames()))
      decreases ns, 0
    {
      var i := 0;
      while i < |ns|
        invariant 0 <= i <= |ns|
        invariant Valid() && fresh(currentScope.Repr - old(currentScope.Repr))
        invariant Scopes(Frames()) && |Frames()| >= 2
        invariant AnalyzeAll(ns[i..], Frames()) == AnalyzeAll(ns, old(Frames()))
      {
        assert ns[i..][0] == ns[i] && ns[i..][1..] == ns[i + 1..];
        r := VisitNode(ns[i]);
        if r.Fail? {
          return;
        }
        i := i + 1;
      }
      r := Pass;
    }

    /** Opens a new scope `name` at `level` inside the current one (`set_enclosing_scope`). */
    method PushScope(name: string, level: nat)
      requires Valid()
      modifies this
      ensures Valid() && fresh(currentScope.Repr - old(currentScope.Repr))
      ensures Frames() == [NewFrame(name, level)] + old(Frames())
    {
      var prevScope := currentScope;
      currentScope := new ScopedSymbolTable(name, level);
      currentScope.SetEnclosingScope(prevScope);
    }

    /** Closes the current scope: its enclosing scope becomes current again (`enclosing_scope`). */
    method PopScope()
      requires Valid() && |Frames()| >= 2
      modifies this, currentScope
      ensures Valid() && currentScope.Repr <= old(currentScope.Repr)
      ensures Frames() == old(Frames())[1..]
    {
      currentScope := currentScope.EnclosingScope();
    }

    /** The Program arm: open "global" inside the current scope, visit the block, restore the scope. */
    method VisitProgram(node: Ast) returns (r: Outcome<Error>)
      requires node.Program? && Valid() && Scopes(Frames())
      modifies this, currentScope.Repr
      ensures Valid() && fresh(currentScope.Repr - old(currentScope.Repr))
      ensures Analysis(Frames(), r) == AnalyzeProgram(node, old(Frames()))
      decreases node, 0
    {
      PushScope("global", 1);
      r := VisitNode(node.block);
      if r.Fail? {
        return;
      }
      PopScope();
    }

    /** The loop over a procedure's parameters: each is declared as a variable in the current scope, in order. */
    method DeclareParams(ps: seq<Param>)
      requires Valid() && Scopes(Frames()) && |Frames()| >= 2
      modifies currentScope
      ensures Valid() && currentScope == old(currentScope) && currentScope.Repr == old(currentScope.Repr)
      ensures Frames() == [AddParams(old(Frames())[0], ps)] + old(Frames())[1..]
    {
      ghost var f0 := Frames()[0];
      ghost var tail := Frames()[1..];
      ghost var g := f0;
      var i := 0;
      while i < |ps|
        invariant 0 <= i <= |ps|
        invariant Valid() && currentScope.Repr == old(currentScope.Repr)
        invariant Frames() == [g] + tail && g.level == f0.level
        invariant AddParams(g, ps[i..]) == AddParams(f0, ps)
      {
        var param := ps[i];
        ScopesHead(old(Frames()), g);
        ScopesCanLookup(Frames(), TypeNameText(param.ttype));
        var typeSymbol := currentScope.Lookup(TypeNameText(param.ttype));
        assert ps[i..][0] == param && ps[i..][1..] == ps[i + 1..];
        currentScope.Insert(VarSymbol(param.id, param.ttype));
        g := Inserted(g, VarSymbol(param.id, param.ttype));
        i := i + 1;
      }
    }

    /**
     * The ProcedureDecl arm: declare the procedure in the current scope, open
     * its own scope one level deeper, declare the parameters there, visit the
     * body, restore the scope.
     */
    method VisitProcedure(node: Ast) returns (r: Outcome<Error>)
      requires node.ProcedureDecl? && Valid() && Scopes(Frames()) && |Frames()| >= 2
      modifies this, currentScope.Repr
      ensures Valid() && fresh(currentScope.Repr - old(currentScope.Repr))
      ensures Analysis(Frames(), r) == AnalyzeProcedure(node, old(Frames()))
      decreases node, 0
    {
      ghost var fs := Frames();
      ghost var outer := Inserted(fs[0], ProcedureSymbol(node.id, node.params));
      ghost var inner := AddParams(NewFrame(node.id, fs[0].level + 1), node.params);
      currentScope.Insert(ProcedureSymbol(node.id, node.params));
      ghost var outerChain := Frames();
      assert outerChain == [outer] + fs[1..];
      ScopesHead(fs, outer);
      var currentScopeLevel := currentScope.ScopeLevel();
      PushScope(node.id, currentScopeLevel + 1);
      ScopesPush(NewFrame(node.id, currentScopeLevel + 1), outerChain);
      ghost var pushed := Frames();
      assert pushed[0] == NewFrame(node.id, fs[0].level + 1) && pushed[1..] == outerChain;
      DeclareParams(node.params);
      assert fresh(currentScope.Repr - old(currentScope.Repr));
      assert Frames() == [inner] + outerChain == BodyChain(node, fs);
      ghost var a := Analyze(node.body, BodyChain(node, fs));
      assert AnalyzeProcedure(node, fs) == if a.outcome.Fail? then a else Analysis(a.frames[1..], Pass);
      r := VisitNode(node.body);
      assert Frames() == a.frames && r == a.outcome;
      assert fresh(currentScope.Repr - old(currentScope.Repr));
      if r.Fail? {
        return;
      }
      PopScope();
    }
  }
}
