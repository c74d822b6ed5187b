/** What running a tree computes, stated over `Interpreting.Visit`. */
module InterpreterProperties {
  import opened Wrappers
  import opened Tokens
  import opened Syntax
  import opened Interpreting
  import AnalyzerProperties

  /** The promotion rule: a binary operator gives a float exactly when it is `/` or one operand is a float. */
  lemma Promotion(op: Kind, a: Value, b: Value)
    requires IsAddOp(op) || IsMulOp(op)
    ensures Combine(op, a, b).Float? <==> op == FloatDiv || a.Float? || b.Float?
  {
  }

  /** On two integers, `+`, `-` and `*` are exact and `DIV` truncates; `/` still gives a float. */
  lemma IntegerOperands(op: Kind, m: int, n: int)
    requires IsAddOp(op) || IsMulOp(op)
    ensures op == Plus ==> Combine(op, Integer(m), Integer(n)) == Integer(m + n)
    ensures op == Minus ==> Combine(op, Integer(m), Integer(n)) == Integer(m - n)
    ensures op == Mul ==> Combine(op, Integer(m), Integer(n)) == Integer(m * n)
    ensures op == IntegerDiv ==> Combine(op, Integer(m), Integer(n)) == Integer(TruncDiv(m, n))
    ensures op == FloatDiv ==> Combine(op, Integer(m), Integer(n)) == Float(Quotient(FromInt(m), FromInt(n)))
  {
  }

  /** `DIV` with a float operand does not truncate: it is the float quotient, as `/` is. */
  lemma IntegerDivOnFloats(a: Value, b: Value)
    requires a.Float? || b.Float?
    ensures Combine(IntegerDiv, a, b) == Combine(FloatDiv, a, b) == Float(Quotient(AsF32(a), AsF32(b)))
  {
  }

  /**
   * Truncating division: the quotient times the divisor is as close to the
   * dividend as it can be without passing it in absolute value; a negative
   * quotient means the operands' signs differ, a positive one that they agree.
   */
  lemma TruncDivBounds(a: int, b: int)
    requires b != 0
    ensures Abs(TruncDiv(a, b) * b) <= Abs(a) < Abs(TruncDiv(a, b) * b) + Abs(b)
    ensures TruncDiv(a, b) < 0 ==> (a < 0) != (b < 0)
    ensures TruncDiv(a, b) > 0 ==> (a < 0) == (b < 0)
  {
    var A, B := Abs(a), Abs(b);
    var m := A / B;
    EuclideanBounds(A, B);
    var q := TruncDiv(a, b);
    assert Abs(q) == m;
    AbsProduct(q, b);
    assert Abs(q * b) == m * B;
  }

  /** Euclidean division of naturals: the quotient times the divisor is at most the dividend, and within one divisor of it. */
  lemma EuclideanBounds(A: nat, B: nat)
    requires B > 0
    ensures (A / B) * B <= A < (A / B) * B + B
  {
    assert A == (A / B) * B + A % B;
  }

  lemma AbsProduct(x: int, y: int)
    ensures Abs(x * y) == Abs(x) * Abs(y)
  {
    if x < 0 && y < 0 {
      assert x * y == (-x) * (-y);
    } else if x < 0 {
      assert -(x * y) == (-x) * y;
    } else if y < 0 {
      assert -(x * y) == x * (-y);
    }
  }

  /** Truncation is symmetric about zero, unlike Dafny's Euclidean `/`: `-7 DIV 2` is -3, not -4. */
  lemma TruncDivOdd(a: int, b: int)
    requires b != 0
    ensures TruncDiv(-a, b) == -TruncDiv(a, b) && TruncDiv(a, -b) == -TruncDiv(a, b)
    ensures a >= 0 && b > 0 ==> TruncDiv(a, b) == a / b
  {
    assert Abs(-a) == Abs(a) && Abs(-b) == Abs(b);
    var m := Abs(a) / Abs(b);
    if a == 0 {
      assert m == 0;
    }
  }

  /** A concrete case of truncation and of the division by zero rule. */
  lemma TruncDivExamples()
    ensures TruncDiv(-7, 2) == -3 && -7 / 2 == -4
    ensures TruncDiv(10, 0) == 2147483647 && TruncDiv(-10, 0) == -2147483648 && TruncDiv(0, 0) == 0
  {
  }

  /** `10 DIV 0` runs: the infinite quotient saturates at i32::MAX. */
  lemma DivisionByZero(mem: map<string, Value>)
    ensures Visit(BinOp(NumInteger(10), NumInteger(0), IntegerDiv), mem) == Step(mem, Ok(Some(Integer(I32Max))))
  {
  }

  /** Unary plus is the operand itself; unary minus negates it, keeping its kind. */
  lemma UnaryOperators(op: Kind, e: Ast, mem: map<string, Value>)
    requires IsAddOp(op) && Valued(e)
    ensures var s := Visit(UnaryOp(op, e), mem); var x := Visit(e, mem);
      && (op == Plus ==> s == x)
      && (op == Minus && x.result.Ok? ==> s.result == Ok(Some(Negate(x.result.value.value))))
      && (x.result.Err? ==> s == x)
  {
    assert Visit(UnaryOp(op, e), mem) == VisitUnaryOp(UnaryOp(op, e), mem);
  }

  /**
   * Operands are evaluated left to right and the first error wins (the
   * semantic analyzer, by contrast, checks the right operand first).
   */
  lemma LeftOperandFirst(l: Ast, r: Ast, op: Kind, mem: map<string, Value>)
    requires (IsAddOp(op) || IsMulOp(op)) && Valued(l) && Valued(r)
    ensures Visit(l, mem).result.Err? ==> Visit(BinOp(l, r, op), mem) == Visit(l, mem)
    ensures Visit(l, mem).result.Ok? && Visit(r, mem).result.Err? ==> Visit(BinOp(l, r, op), mem) == Visit(r, mem)
    ensures Visit(l, mem).result.Ok? && Visit(r, mem).result.Ok? ==>
      Visit(BinOp(l, r, op), mem) == Step(mem, Ok(Some(Combine(op, Visit(l, mem).result.value.value, Visit(r, mem).result.value.value))))
  {
    assert Visit(BinOp(l, r, op), mem) == VisitBinOp(BinOp(l, r, op), mem);
  }

  /** A variable reads the memory; an unset one is an error. */
  lemma VarReads(id: string, token: Kind, mem: map<string, Value>)
    ensures id in mem ==> Visit(Var(id, token), mem) == Step(mem, Ok(Some(mem[id])))
    ensures id !in mem ==> Visit(Var(id, token), mem) == Step(mem, Err(IdNotFound(Id(id))))
  {
  }

  /**
   * An assignment binds the value of its right side to the name and
   * changes no other binding; when the right side fails, the memory is
   * left as it was and its error is returned.
   */
  lemma AssignBinds(id: string, left: Ast, right: Ast, mem: map<string, Value>)
    requires Valued(right)
    ensures var s := Visit(Assign(id, left, right), mem); var r := Visit(right, mem);
      && (r.result.Ok? ==> s.result == Ok(None) && id in s.memory && s.memory[id] == r.result.value.value)
      && (r.result.Ok? ==> forall k | k != id :: (k in s.memory <==> k in mem) && (k in mem ==> s.memory[k] == mem[k]))
      && (r.result.Err? ==> s == Step(mem, r.result))
  {
    assert Visit(Assign(id, left, right), mem) == VisitAssign(Assign(id, left, right), mem);
  }

  /** A compound statement never fails: the errors of its children are dropped. */
  lemma CompoundNeverFails(cs: seq<Ast>, mem: map<string, Value>)
    requires forall c | c in cs :: Runnable(c)
    ensures Visit(Compound(cs), mem) == Step(VisitChildren(cs, mem), Ok(None))
  {
  }

  /** Running children in sequence is running the first part, then the rest from there. */
  lemma {:induction false} ChildrenAppend(cs: seq<Ast>, ds: seq<Ast>, mem: map<string, Value>)
    requires forall c | c in cs + ds :: Runnable(c)
    ensures VisitChildren(cs + ds, mem) == VisitChildren(ds, VisitChildren(cs, mem))
    decreases |cs|
  {
    if cs == [] {
      assert cs + ds == ds;
    } else {
      assert (cs + ds)[0] == cs[0] && (cs + ds)[1..] == cs[1..] + ds;
      ChildrenAppend(cs[1..], ds, Visit(cs[0], mem).memory);
    }
  }

  /** `BEGIN z := y; w := 1 END` with `y` unset: the first assignment fails silently, the second still runs. */
  lemma FailedStatementSkipped()
    ensures Visit(Compound([
      Assign("z", Var("z", Id("z")), Var("y", Id("y"))),
      Assign("w", Var("w", Id("w")), NumInteger(1))]), map[]) == Step(map["w" := Integer(1)], Ok(None))
  {
    var cs := [Assign("z", Var("z", Id("z")), Var("y", Id("y"))), Assign("w", Var("w", Id("w")), NumInteger(1))];
    assert Visit(cs[0], map[]) == Step(map[], Err(IdNotFound(Id("y"))));
    assert Visit(cs[1], map[]).memory == map["w" := Integer(1)];
    assert cs[1..][1..] == [];
  }

  /** Declarations and the empty statement do nothing at run time. */
  lemma DeclarationsDoNothing(d: Ast, mem: map<string, Value>)
    requires d.VarDecl? || d.ProcedureDecl? || d.NoOp?
    ensures Visit(d, mem) == Step(mem, Ok(None))
  {
  }

  /** Every expression the parser builds can be evaluated. */
  lemma {:induction false} ExprValued(e: Ast)
    requires IsExpr(e)
    ensures Valued(e)
  {
    match e
    case UnaryOp(_, x) => ExprValued(x);
    case BinOp(l, r, _) => ExprValued(l); ExprValued(r);
    case _ =>
  }

  /** Every statement the parser builds can be walked. */
  lemma {:induction false} StatementRunnable(s: Ast)
    requires IsStatement(s)
    ensures Runnable(s)
    decreases s
  {
    match s
    case Compound(cs) =>
      forall c | c in cs
        ensures Runnable(c)
      {
        StatementRunnable(c);
      }
    case Assign(_, _, r) => ExprValued(r);
    case NoOp =>
  }

  /** A declaration list runs without changing the memory and without failing. */
  lemma {:induction false} DeclarationsRun(ds: seq<Ast>, mem: map<string, Value>)
    requires AllDeclarations(ds)
    ensures forall d | d in ds :: Runnable(d)
    ensures VisitDeclarations(ds, mem) == Step(mem, Ok(None))
    decreases |ds|
  {
    if ds != [] {
      assert IsDeclaration(ds[0]);
      DeclarationsDoNothing(ds[0], mem);
      assert forall d | d in ds[1..] :: d in ds;
      DeclarationsRun(ds[1..], mem);
    }
  }

  /**
   * A program the parser can build never fails at run time: declarations
   * do nothing and every failing statement is dropped by its compound
   * statement. Its memory is what its statements leave.
   */
  lemma ProgramNeverFails(p: Ast, mem: map<string, Value>)
    requires IsProgram(p)
    ensures Runnable(p) && forall c | c in p.block.compound.children :: Runnable(c)
    ensures Visit(p, mem) == Step(VisitChildren(p.block.compound.children, mem), Ok(None))
  {
    DeclarationsRun(p.block.declarations, mem);
    StatementRunnable(p.block.compound);
    assert Visit(p.block, mem) == Visit(p.block.compound, mem);
  }

  /** The running example leaves `a` = 2 and `b` = 10 DIV 2 = 5 in memory. */
  lemma ExampleMemory()
    ensures Runnable(AnalyzerProperties.Example())
    ensures Visit(AnalyzerProperties.Example(), map[]) == Step(map["a" := Integer(2), "b" := Integer(5)], Ok(None))
  {
    var p := AnalyzerProperties.Example();
    ProgramNeverFails(p, map[]);
    ExampleStatementsRun(p.block.compound.children);
  }

  /** The statements of the running example, one after the other. */
  lemma {:induction false} ExampleStatementsRun(cs: seq<Ast>)
    requires cs == AnalyzerProperties.Example().block.compound.children
    requires forall c | c in cs :: Runnable(c)
    ensures VisitChildren(cs, map[]) == map["a" := Integer(2), "b" := Integer(5)]
  {
    var m1 := map["a" := Integer(2)];
    var m2 := map["a" := Integer(2), "b" := Integer(5)];
    assert Visit(cs[0], map[]).memory == m1 by {
      AssignBinds("a", Var("a", Id("a")), NumInteger(2), map[]);
    }
    ExampleDivision(cs[1], m1);
    assert Visit(cs[2], m2).memory == m2;
    ThreeChildren(cs, map[]);
  }

  /** Three statements run one after the other, each from the memory the one before it left. */
  lemma ThreeChildren(cs: seq<Ast>, mem: map<string, Value>)
    requires |cs| == 3 && forall c | c in cs :: Runnable(c)
    ensures VisitChildren(cs, mem) == Visit(cs[2], Visit(cs[1], Visit(cs[0], mem).memory).memory).memory
  {
    var t1, t2 := cs[1..], cs[2..];
    assert t1[0] == cs[1] && t1[1..] == t2 && t2[0] == cs[2] && t2[1..] == [];
    var m1 := Visit(cs[0], mem).memory;
    var m2 := Visit(cs[1], m1).memory;
    var m3 := Visit(cs[2], m2).memory;
    assert VisitChildren(t2, m2) == VisitChildren([], m3) == m3;
    assert VisitChildren(t1, m1) == VisitChildren(t2, m2);
    assert VisitChildren(cs, mem) == VisitChildren(t1, m1);
  }

  /** `b := 10 DIV a` with `a` = 2 binds `b` to 5. */
  lemma ExampleDivision(c: Ast, m1: map<string, Value>)
    requires c == Assign("b", Var("b", Id("b")), BinOp(NumInteger(10), Var("a", Id("a")), IntegerDiv))
    requires m1 == map["a" := Integer(2)]
    ensures Runnable(c) && Visit(c, m1).memory == map["a" := Integer(2), "b" := Integer(5)]
  {
    LiteralDividedByVariable(10, "a", m1);
    assert TruncDiv(10, 2) == 5;
    AssignBinds("b", Var("b", Id("b")), c.right, m1);
    assert m1["b" := Integer(5)] == map["a" := Integer(2), "b" := Integer(5)];
  }

  /** `n DIV y`, with `y` bound to an integer, is the truncated quotient of `n` by it. */
  lemma LiteralDividedByVariable(n: int, y: string, mem: map<string, Value>)
    requires y in mem && mem[y].Integer?
    ensures Visit(BinOp(NumInteger(n), Var(y, Id(y)), IntegerDiv), mem) == Step(mem, Ok(Some(Integer(TruncDiv(n, mem[y].i)))))
  {
    LeftOperandFirst(NumInteger(n), Var(y, Id(y)), IntegerDiv, mem);
  }
}
