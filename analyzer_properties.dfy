/** What the semantic analysis accepts and rejects, stated over `Semantic.Analyze`. */
module AnalyzerProperties {
  import opened Wrappers
  import opened Tokens
  import opened Syntax
  import opened Symbols
  import opened SymbolProperties
  import opened Semantic

  /**
   * A variable declaration is rejected exactly when its name is already in
   * the current scope; otherwise the name is bound there to the declared
   * type and nothing else on the chain changes.
   */
  lemma VarDeclOutcome(node: Ast, fs: seq<Frame>)
    requires node.VarDecl? && Scopes(fs) && |fs| >= 2
    ensures Analyze(node, fs).outcome == Fail(DuplicateId(node.token)) <==> node.id in fs[0].table
    ensures Analyze(node, fs).outcome.Pass? <==> node.id !in fs[0].table
    ensures node.id !in fs[0].table ==>
      && Analyze(node, fs).frames == [Inserted(fs[0], VarSymbol(node.id, node.varType))] + fs[1..]
      && CanLookup(Analyze(node, fs).frames, node.id)
      && ChainLookup(Analyze(node, fs).frames, node.id) == Some(VarSymbol(node.id, node.varType))
  {
    if node.id !in fs[0].table {
      InsertThenLookup(fs, VarSymbol(node.id, node.varType));
    }
  }

  /**
   * Shadowing is allowed: a name the enclosing scopes already declare can
   * be declared again in the current scope, and lookup then finds the inner one.
   */
  lemma ShadowingAccepted(node: Ast, fs: seq<Frame>)
    requires node.VarDecl? && Scopes(fs) && |fs| >= 3
    requires node.id !in fs[0].table && node.id in fs[1].table
    ensures Analyze(node, fs).outcome.Pass?
    ensures ChainLookup(Analyze(node, fs).frames, node.id) == Some(VarSymbol(node.id, node.varType))
  {
    VarDeclOutcome(node, fs);
  }

  /**
   * A variable reference is reported exactly when no scope but the root
   * declares it; the chain is never changed by a reference.
   */
  lemma VarOutcome(node: Ast, fs: seq<Frame>)
    requires node.Var? && Scopes(fs) && |fs| >= 2
    ensures Analyze(node, fs).frames == fs
    ensures Analyze(node, fs).outcome.Fail? <==> forall i :: 0 <= i < |fs| - 1 ==> node.id !in fs[i].table
    ensures Analyze(node, fs).outcome.Fail? ==> Analyze(node, fs).outcome.error == IdNotFound(node.token)
  {
    LookupMissing(fs, node.id);
  }

  /**
   * Assignments and binary operations check the right operand first: an
   * error there is the one reported, and the left operand is not visited.
   */
  lemma {:induction false} RightOperandFirst(node: Ast, fs: seq<Frame>)
    requires (node.Assign? || node.BinOp?) && Scopes(fs) && |fs| >= 2
    requires Analyze(node.right, fs).outcome.Fail?
    ensures Analyze(node, fs) == Analyze(node.right, fs)
  {
    assert Analyze(node, fs) == AnalyzeOperands(node, fs);
  }

  /** With both operands undeclared names, the one reported is the right operand's. */
  lemma UndeclaredOperandsReportRight(x: string, y: string, op: Kind, fs: seq<Frame>)
    requires Scopes(fs) && |fs| >= 2
    requires forall i :: 0 <= i < |fs| - 1 ==> x !in fs[i].table && y !in fs[i].table
    ensures Analyze(BinOp(Var(x, Id(x)), Var(y, Id(y)), op), fs).outcome == Fail(IdNotFound(Id(y)))
  {
    VarOutcome(Var(y, Id(y)), fs);
    RightOperandFirst(BinOp(Var(x, Id(x)), Var(y, Id(y)), op), fs);
  }

  /** The operand of a unary operator is not visited: an undeclared name under `+` or `-` is not reported. */
  lemma UnaryOperandUnchecked(op: Kind, x: string, fs: seq<Frame>)
    requires Scopes(fs) && |fs| >= 2
    ensures Analyze(UnaryOp(op, Var(x, Id(x))), fs) == Analysis(fs, Pass)
  {
  }

  /**
   * Visiting a sequence of nodes is visiting its two halves in turn: the
   * second half is visited only when the first one passes, from the chain
   * it left.
   */
  lemma {:induction false} AnalyzeAllAppend(ns: seq<Ast>, ms: seq<Ast>, fs: seq<Frame>)
    requires Scopes(fs) && |fs| >= 2
    ensures var a := AnalyzeAll(ns, fs);
      AnalyzeAll(ns + ms, fs) == if a.outcome.Fail? then a else AnalyzeAll(ms, a.frames)
    decreases |ns|
  {
    if ns == [] {
      assert ns + ms == ms;
    } else {
      assert (ns + ms)[0] == ns[0] && (ns + ms)[1..] == ns[1..] + ms;
      var a := Analyze(ns[0], fs);
      if a.outcome.Pass? {
        AnalyzeAllAppend(ns[1..], ms, a.frames);
      }
    }
  }

  /** The first node of a sequence that fails decides the outcome: the ones after it are never visited. */
  lemma FirstErrorStops(ns: seq<Ast>, n: Ast, ms: seq<Ast>, fs: seq<Frame>)
    requires Scopes(fs) && |fs| >= 2
    requires AnalyzeAll(ns, fs).outcome.Pass?
    requires Analyze(n, AnalyzeAll(ns, fs).frames).outcome.Fail?
    ensures AnalyzeAll(ns + [n] + ms, fs) == Analyze(n, AnalyzeAll(ns, fs).frames)
  {
    var a := AnalyzeAll(ns, fs);
    assert ns + [n] + ms == ns + ([n] + ms);
    AnalyzeAllAppend(ns, [n] + ms, fs);
    assert ([n] + ms)[0] == n;
  }

  /**
   * A procedure declaration succeeds exactly when its body does: the body
   * is analyzed in a scope named after the procedure, one level deeper,
   * where every parameter is declared, inside the current scope, which now
   * holds the procedure's symbol. Nothing is checked about the parameters
   * themselves, so a repeated parameter name is not reported.
   */
  lemma ProcedureOutcome(node: Ast, fs: seq<Frame>)
    requires node.ProcedureDecl? && Scopes(fs) && |fs| >= 2
    ensures var ch := BodyChain(node, fs);
      && Analyze(node, fs).outcome == Analyze(node.body, ch).outcome
      && ch[0].name == node.id && ch[0].level == fs[0].level + 1
      && (forall p | p in node.params :: p.id in ch[0].table)
      && ch[1].table[node.id] == ProcedureSymbol(node.id, node.params)
  {
  }

  /**
   * The last declaration of a name among a procedure's parameters is the
   * one its scope binds.
   */
  lemma {:induction false} ParamBound(f: Frame, ps: seq<Param>, i: nat)
    requires i < |ps| && forall j :: i < j < |ps| ==> ps[j].id != ps[i].id
    ensures AddParams(f, ps).table[ps[i].id] == VarSymbol(ps[i].id, ps[i].ttype)
    decreases |ps|
  {
    var g := Inserted(f, VarSymbol(ps[0].id, ps[0].ttype));
    if i == 0 {
      AddParamsKeeps(g, ps[1..], ps[0].id);
    } else {
      forall j | i - 1 < j < |ps[1..]|
        ensures ps[1..][j].id != ps[1..][i - 1].id
      {
        assert ps[1..][j] == ps[j + 1];
      }
      ParamBound(g, ps[1..], i - 1);
    }
  }

  /** Parameters that do not have the name `n` leave its entry as it was. */
  lemma {:induction false} AddParamsKeeps(f: Frame, ps: seq<Param>, n: string)
    requires n in f.table && forall j :: 0 <= j < |ps| ==> ps[j].id != n
    ensures AddParams(f, ps).table[n] == f.table[n]
    decreases |ps|
  {
    if ps != [] {
      var g := Inserted(f, VarSymbol(ps[0].id, ps[0].ttype));
      forall j | 0 <= j < |ps[1..]|
        ensures ps[1..][j].id != n
      {
        assert ps[1..][j] == ps[j + 1];
      }
      AddParamsKeeps(g, ps[1..], n);
    }
  }

  /** A program analyzed from the root scope that passes leaves the root scope exactly as it found it. */
  lemma ProgramRestoresRoot(p: Ast)
    requires p.Program?
    ensures Analyze(p, [Root]).outcome.Pass? ==> Analyze(p, [Root]).frames == [Root]
  {
  }

  /** The program of the running example: two INTEGER variables, then `a := 2; b := 10 DIV a;`. */
  function Example(): (p: Ast)
    ensures IsProgram(p)
  {
    Program("P1", Block(
      [VarDecl("a", IntegerType, Semi), VarDecl("b", IntegerType, Semi)],
      Compound([
        Assign("a", Var("a", Id("a")), NumInteger(2)),
        Assign("b", Var("b", Id("b")), BinOp(NumInteger(10), Var("a", Id("a")), IntegerDiv)),
        NoOp])))
  }

  /** The running example passes the analysis from the root scope. */
  lemma ExamplePasses()
    ensures Analyze(Example(), [Root]) == Analysis([Root], Pass)
  {
    var g0 := NewFrame("global", 1);
    var fs0 := [g0, Root];
    var fs1 := [Inserted(g0, VarSymbol("a", IntegerType)), Root];
    var fs2 := [Inserted(fs1[0], VarSymbol("b", IntegerType)), Root];
    var block := Example().block;
    ExampleDeclarations(fs0, fs1, fs2);
    ExampleStatements(fs2);
    assert Analyze(block, fs0) == Analysis(fs2, Pass);
  }

  /** The declarations of the running example bind `a` and then `b` in "global". */
  lemma ExampleDeclarations(fs0: seq<Frame>, fs1: seq<Frame>, fs2: seq<Frame>)
    requires fs0 == [NewFrame("global", 1), Root]
    requires fs1 == [Inserted(fs0[0], VarSymbol("a", IntegerType)), Root]
    requires fs2 == [Inserted(fs1[0], VarSymbol("b", IntegerType)), Root]
    ensures AnalyzeAll(Example().block.declarations, fs0) == Analysis(fs2, Pass)
  {
    var ds := Example().block.declarations;
    assert Analyze(ds[0], fs0) == Analysis(fs1, Pass);
    assert Analyze(ds[1], fs1) == Analysis(fs2, Pass);
    assert ds[1..][1..] == [];
  }

  /** The statements of the running example use only declared names. */
  lemma {:induction false} ExampleStatements(fs: seq<Frame>)
    requires Scopes(fs) && |fs| == 2 && "a" in fs[0].table && "b" in fs[0].table
    ensures AnalyzeAll(Example().block.compound.children, fs) == Analysis(fs, Pass)
  {
    var cs := Example().block.compound.children;
    assert Analyze(cs[0], fs) == Analysis(fs, Pass);
    assert Analyze(cs[1].right, fs) == Analysis(fs, Pass);
    assert Analyze(cs[1], fs) == Analysis(fs, Pass);
    assert cs[1..][1..][1..] == [];
  }

  /** Using a name that is not declared: `x := y` with only `x` declared reports `y`. */
  lemma UndeclaredReported()
    ensures Analyze(
      Program("P2", Block([VarDecl("x", RealType, Semi)],
        Compound([Assign("x", Var("x", Id("x")), Var("y", Id("y")))]))), [Root]).outcome
      == Fail(IdNotFound(Id("y")))
  {
    var g0 := NewFrame("global", 1);
    var fs1 := [Inserted(g0, VarSymbol("x", RealType)), Root];
    assert AnalyzeAll([VarDecl("x", RealType, Semi)], [g0, Root]) == Analysis(fs1, Pass);
    assert Analyze(Var("y", Id("y")), fs1).outcome == Fail(IdNotFound(Id("y")));
  }
}
