/**
 * The tree-walking interpreter (part15 interpreter.rs).
 *
 * `Visit` states what `visit_node` does: the global memory after the visit
 * and the value (or error) it returns, as a function of the node and the
 * memory it starts from. The class `Interpreter` is the walk itself, over a
 * mutable `globalMemory`, and is proved to compute `Visit`.
 */
module Interpreting {
  import opened Wrappers
  import opened Tokens
  import opened Syntax
  import opened Rows

  /** `CaclResult`: the value of an expression, an i32 or an f32. */
  datatype Value = Integer(i: int) | Float(f: F32)

  /** `as_f32`: an integer is converted, a float is itself. */
  function AsF32(v: Value): (x: F32)
    ensures v.Float? ==> x == v.f
    ensures v.Integer? ==> x == FromInt(v.i)
  {
    match v
    case Float(f) => f
    case Integer(n) => FromInt(n)
  }

  /** `at_least_one_float`. */
  predicate AtLeastOneFloat(a: Value, b: Value): (r: bool)
    ensures r <==> !(a.Integer? && b.Integer?)
  {
    a.Float? || b.Float?
  }

  /** The closures `arithmetic` is called with. */
  datatype Operation = Add | Subtract | Multiply | Divide

  /** The closure applied to the two operands converted to f32. */
  function FloatOperation(op: Operation, a: F32, b: F32): (x: F32)
    ensures (x.Sum? || x.Difference? || x.Product? || x.Quotient?) && x.a == a && x.b == b
    ensures x.Quotient? <==> op == Divide
  {
    match op
    case Add => Sum(a, b)
    case Subtract => Difference(a, b)
    case Multiply => Product(a, b)
    case Divide => Quotient(a, b)
  }

  const I32Max: int := 0x7fff_ffff
  const I32Min: int := -0x8000_0000

  /**
   * `(a as f32 / b as f32) as i32`: the quotient truncated toward zero.
   * Dividing by zero gives an infinity (or NaN for 0/0), which the
   * saturating cast to i32 turns into i32::MAX, i32::MIN or 0.
   */
  function TruncDiv(a: int, b: int): (q: int)
    ensures b == 0 ==> q == (if a > 0 then I32Max else if a < 0 then I32Min else 0)
  {
    if b == 0 then (if a > 0 then I32Max else if a < 0 then I32Min else 0)
    else
      var m := Abs(a) / Abs(b);
      if (a < 0) != (b < 0) then -m else m
  }

  function Abs(n: int): (m: nat)
    ensures m == n || m == -n
  {
    if n < 0 then -n else n
  }

  /**
   * The closure applied on the integer path, where the f32 result is cast
   * back to i32: exact sums, differences and products, truncated quotients.
   */
  function IntegerOperation(op: Operation, a: int, b: int): (r: int)
    ensures op == Add ==> r - b == a
    ensures op == Subtract ==> r + b == a
    ensures op == Multiply ==> r == a * b
    ensures op == Divide ==> r == TruncDiv(a, b)
  {
    match op
    case Add => a + b
    case Subtract => a - b
    case Multiply => a * b
    case Divide => TruncDiv(a, b)
  }

  /**
   * `arithmetic`: the result is a float exactly when one operand is; two
   * integers give an integer.
   */
  function Arithmetic(a: Value, b: Value, op: Operation): (v: Value)
    ensures v.Float? <==> AtLeastOneFloat(a, b)
    ensures v.Float? ==> v.f == FloatOperation(op, AsF32(a), AsF32(b))
    ensures v.Integer? ==> v.i == IntegerOperation(op, a.i, b.i)
  {
    if AtLeastOneFloat(a, b) then Float(FloatOperation(op, AsF32(a), AsF32(b)))
    else Integer(IntegerOperation(op, a.i, b.i))
  }

  /**
   * The value of a binary operator: `/` always gives a float quotient; the
   * others go through `arithmetic`.
   */
  function Combine(op: Kind, a: Value, b: Value): (v: Value)
    requires IsAddOp(op) || IsMulOp(op)
    ensures op == FloatDiv ==> v == Float(Quotient(AsF32(a), AsF32(b)))
    ensures op != FloatDiv ==> (v.Float? <==> AtLeastOneFloat(a, b))
  {
    match op
    case Mul => Arithmetic(a, b, Multiply)
    case FloatDiv => Float(Quotient(AsF32(a), AsF32(b)))
    case IntegerDiv => Arithmetic(a, b, Divide)
    case Plus => Arithmetic(a, b, Add)
    case Minus => Arithmetic(a, b, Subtract)
  }

  /** Unary minus: the negation, of the same kind of value. */
  function Negate(v: Value): (w: Value)
    ensures w.Integer? <==> v.Integer?
  {
    match v
    case Integer(n) => Integer(-n)
    case Float(x) => Float(Negated(x))
  }

  /**
   * The nodes `visit_node` returns a value for: literals, variables, and
   * the operators it knows. Any other operator makes it panic, and so does
   * an operand that is a statement (the `unwrap` of `None`).
   */
  predicate Valued(n: Ast): (b: bool)
    ensures b ==> n.NumInteger? || n.NumReal? || n.Var? || n.UnaryOp? || n.BinOp?
  {
    match n
    case NumInteger(_) => true
    case NumReal(_) => true
    case Var(_, _) => true
    case UnaryOp(op, x) => IsAddOp(op) && Valued(x)
    case BinOp(l, r, op) => (IsAddOp(op) || IsMulOp(op)) && Valued(l) && Valued(r)
    case _ => false
  }

  /** The trees `visit_node` walks without panicking: every expression in them is `Valued`. */
  predicate Runnable(n: Ast): (b: bool)
    ensures Valued(n) ==> b
  {
    match n
    case Program(_, b) => Runnable(b)
    case Block(ds, c) => (forall d | d in ds :: Runnable(d)) && Runnable(c)
    case Compound(cs) => forall c | c in cs :: Runnable(c)
    case Assign(_, _, r) => Valued(r)
    case VarDecl(_, _, _) => true
    case ProcedureDecl(_, _, _) => true
    case NoOp => true
    case NumInteger(_) => true
    case NumReal(_) => true
    case Var(_, _) => true
    case UnaryOp(op, x) => IsAddOp(op) && Valued(x)
    case BinOp(l, r, op) => (IsAddOp(op) || IsMulOp(op)) && Valued(l) && Valued(r)
  }

  /** An expression `visit_node` can evaluate is a tree it can walk. */
  lemma ValuedRunnable(n: Ast)
    requires Valued(n)
    ensures Runnable(n)
  {
  }

  /** The global memory after a visit, and what the visit returned. */
  datatype Step = Step(memory: map<string, Value>, result: Result<Option<Value>, Error>)

  /**
   * One call of `visit_node` on `node` with global memory `mem`.
   * Expressions read the memory and never change it.
   */
  function Visit(node: Ast, mem: map<string, Value>): (s: Step)
    requires Runnable(node)
    ensures Valued(node) ==> s.memory == mem && (s.result.Ok? ==> s.result.value.Some?)
    ensures mem.Keys <= s.memory.Keys
    decreases node, 1
  {
    match node
    case Program(_, b) => Visit(b, mem)
    case Block(ds, c) =>
      var s := VisitDeclarations(ds, mem);
      if s.result.Err? then s else Visit(c, s.memory)
    case VarDecl(_, _, _) => Step(mem, Ok(None))
    case NumInteger(v) => Step(mem, Ok(Some(Integer(v))))
    case NumReal(x) => Step(mem, Ok(Some(Float(x))))
    case BinOp(_, _, _) => VisitBinOp(node, mem)
    case UnaryOp(_, _) => VisitUnaryOp(node, mem)
    case Compound(cs) => Step(VisitChildren(cs, mem), Ok(None))
    case Assign(_, _, _) => VisitAssign(node, mem)
    case Var(id, _) => if id in mem then Step(mem, Ok(Some(mem[id]))) else Step(mem, Err(IdNotFound(Id(id))))
    case NoOp => Step(mem, Ok(None))
    case ProcedureDecl(_, _, _) => Step(mem, Ok(None))
  }

  /** The BinOp arm: the left operand, then the right one, each stopping at an error, then the operator. */
  function VisitBinOp(node: Ast, mem: map<string, Value>): (s: Step)
    requires node.BinOp? && Runnable(node)
    ensures s.memory == mem && (s.result.Ok? ==> s.result.value.Some?)
    decreases node, 0
  {
    ValuedRunnable(node.left);
    ValuedRunnable(node.right);
    var l := Visit(node.left, mem);
    if l.result.Err? then l
    else
      var r := Visit(node.right, mem);
      if r.result.Err? then r
      else Step(mem, Ok(Some(Combine(node.op, l.result.value.value, r.result.value.value))))
  }

  /** The UnaryOp arm: `+` returns the operand's value, `-` its negation. */
  function VisitUnaryOp(node: Ast, mem: map<string, Value>): (s: Step)
    requires node.UnaryOp? && Runnable(node)
    ensures s.memory == mem && (s.result.Ok? ==> s.result.value.Some?)
    decreases node, 0
  {
    ValuedRunnable(node.expr);
    var x := Visit(node.expr, mem);
    if node.op == Plus || x.result.Err? then x
    else Step(mem, Ok(Some(Negate(x.result.value.value))))
  }

  /** The Assign arm: the right side is evaluated (an error is returned as it is), then bound to the name. */
  function VisitAssign(node: Ast, mem: map<string, Value>): (s: Step)
    requires node.Assign? && Runnable(node)
    ensures s.result.Ok? ==> s.result.value.None?
    ensures mem.Keys <= s.memory.Keys
    decreases node, 0
  {
    ValuedRunnable(node.right);
    var r := Visit(node.right, mem);
    if r.result.Err? then Step(mem, r.result)
    else Step(mem[node.leftId := r.result.value.value], Ok(None))
  }

  /** The loop over a block's declarations: in order, up to the first error. */
  function VisitDeclarations(ds: seq<Ast>, mem: map<string, Value>): (s: Step)
    requires forall d | d in ds :: Runnable(d)
    ensures s.result.Ok? ==> s.result.value.None?
    ensures mem.Keys <= s.memory.Keys
    decreases ds, 0
  {
    if ds == [] then Step(mem, Ok(None))
    else
      var s := Visit(ds[0], mem);
      if s.result.Err? then s else VisitDeclarations(ds[1..], s.memory)
  }

  /** The loop over a compound statement's children: every child is visited, and its result, error or not, is dropped. */
  function VisitChildren(cs: seq<Ast>, mem: map<string, Value>): (m: map<string, Value>)
    requires forall c | c in cs :: Runnable(c)
    ensures mem.Keys <= m.Keys
    decreases cs, 0
  {
    if cs == [] then mem else VisitChildren(cs[1..], Visit(cs[0], mem).memory)
  }

  class Interpreter {
    var globalMemory: map<string, Value>

    /** `Interpreteter::new`: the memory starts empty. */
    constructor()
      ensures globalMemory == map[]
    {
      globalMemory := map[];
    }

    /** `visit_node`: proved to compute `Visit`. */
    method VisitNode(node: Ast) returns (r: Result<Option<Value>, Error>)
      requires Runnable(node)
      modifies this
      ensures Step(globalMemory, r) == Visit(node, old(globalMemory))
      decreases node, 1
    {
      match node
      case Program(_, b) =>
        r := VisitNode(b);
      case Block(_, _) =>
        r := VisitBlock(node);
      case VarDecl(_, _, _) =>
        r := Ok(None);
      case NumInteger(v) =>
        r := Ok(Some(Integer(v)));
      case NumReal(x) =>
        r := Ok(Some(Float(x)));
      case BinOp(_, _, _) =>
        r := VisitBinOpNode(node);
      case UnaryOp(_, _) =>
        r := VisitUnaryOpNode(node);
      case Compound(cs) =>
        VisitChildNodes(cs);
        r := Ok(None);
      case Assign(_, _, _) =>
        r := VisitAssignNode(node);
      case Var(id, _) =>
        if id in globalMemory {
          r := Ok(Some(globalMemory[id]));
        } else {
          r := Err(IdNotFound(Id(id)));
        }
      case NoOp =>
        r := Ok(None);
      case ProcedureDecl(_, _, _) =>
        r := Ok(None);
    }

    /** The Block arm: the declarations in order, each with `?`, then the compound statement. */
    method VisitBlock(node: Ast) returns (r: Result<Option<Value>, Error>)
      requires node.Block? && Runnable(node)
      modifies this
      ensures Step(globalMemory, r) == Visit(node, old(globalMemory))
      decreases node, 0
    {
      var ds := node.declarations;
      var i := 0;
      while i < |ds|
        invariant 0 <= i <= |ds|
        invariant VisitDeclarations(ds[i..], globalMemory) == VisitDeclarations(ds, old(globalMemory))
      {
        assert ds[i..][0] == ds[i] && ds[i..][1..] == ds[i + 1..];
        r := VisitNode(ds[i]);
        if r.Err? {
          return;
        }
        i := i + 1;
      }
      r := VisitNode(node.compound);
    }

    /** The BinOp arm: the left operand, then the right one, each with `?`, then the operator. */
    method VisitBinOpNode(node: Ast) returns (r: Result<Option<Value>, Error>)
      requires node.BinOp? && Runnable(node)
      modifies this
      ensures Step(globalMemory, r) == VisitBinOp(node, old(globalMemory))
      decreases node, 0
    {
      ValuedRunnable(node.left);
      ValuedRunnable(node.right);
      var a := VisitNode(node.left);
      if a.Err? {
        return a;
      }
      var b := VisitNode(node.right);
      if b.Err? {
        return b;
      }
      r := Ok(Some(Combine(node.op, a.value.value, b.value.value)));
    }

    /** The UnaryOp arm. */
    method VisitUnaryOpNode(node: Ast) returns (r: Result<Option<Value>, Error>)
      requires node.UnaryOp? && Runnable(node)
      modifies this
      ensures Step(globalMemory, r) == VisitUnaryOp(node, old(globalMemory))
      decreases node, 0
    {
      ValuedRunnable(node.expr);
      r := VisitNode(node.expr);
      if node.op == Minus && r.Ok? {
        r := Ok(Some(Negate(r.value.value)));
      }
    }

    /** The Assign arm: the right side with `?`, then `global_memory.insert`. */
    method VisitAssignNode(node: Ast) returns (r: Result<Option<Value>, Error>)
      requires node.Assign? && Runnable(node)
      modifies this
      ensures Step(globalMemory, r) == VisitAssign(node, old(globalMemory))
      decreases node, 0
    {
      ValuedRunnable(node.right);
      var res := VisitNode(node.right);
      if res.Err? {
        return res;
      }
      globalMemory := globalMemory[node.leftId := res.value.value];
      r := Ok(None);
    }

    /** The loop over a compound statement's children; each result is dropped. */
    method VisitChildNodes(cs: seq<Ast>)
      requires forall c | c in cs :: Runnable(c)
      modifies this
      ensures globalMemory == VisitChildren(cs, old(globalMemory))
      decreases cs, 0
    {
      var i := 0;
      while i < |cs|
        invariant 0 <= i <= |cs|
        invariant VisitChildren(cs[i..], globalMemory) == VisitChildren(cs, old(globalMemory))
      {
        assert cs[i..][0] == cs[i] && cs[i..][1..] == cs[i + 1..];
        var res := VisitNode(cs[i]);
        i := i + 1;
      }
    }

    /**
     * `print_global_memory` without the printing: one row per variable,
     * collected in the memory's own (arbitrary) order and then sorted.
     */
    method GlobalMemoryRows() returns (rows: seq<(string, Value)>)
      ensures SortedRows(rows) && |rows| == |globalMemory|
      ensures forall i | 0 <= i < |rows| :: rows[i].0 in globalMemory && globalMemory[rows[i].0] == rows[i].1
    {
      rows := [];
      var remaining := globalMemory.Keys;
      while remaining != {}
        invariant remaining <= globalMemory.Keys
        invariant SortedRows(rows) && |rows| + |remaining| == |globalMemory|
        invariant forall i | 0 <= i < |rows| :: rows[i].0 in globalMemory.Keys - remaining && globalMemory[rows[i].0] == rows[i].1
        decreases |remaining|
      {
        var k :| k in remaining;
        var row := (k, globalMemory[k]);
        InsertRowSorted(rows, row);
        InsertRowMembers(rows, row);
        var next := InsertRow(rows, row);
        forall i | 0 <= i < |next|
          ensures next[i].0 in globalMemory.Keys - (remaining - {k}) && globalMemory[next[i].0] == next[i].1
        {
          assert next[i] in next;
          if next[i] != row {
            var j :| 0 <= j < |rows| && rows[j] == next[i];
          }
        }
        rows := next;
        remaining := remaining - {k};
      }
    }

    /** `interpret`: visit the tree, then, when that succeeds, the memory report. */
    method Interpret(tree: Ast) returns (r: Result<seq<(string, Value)>, Error>)
      requires Runnable(tree)
      modifies this
      ensures globalMemory == Visit(tree, old(globalMemory)).memory
      ensures r.Err? <==> Visit(tree, old(globalMemory)).result.Err?
      ensures r.Err? ==> r.error == Visit(tree, old(globalMemory)).result.error
      ensures r.Ok? ==> SortedRows(r.value) && |r.value| == |globalMemory|
      ensures r.Ok? ==> forall i | 0 <= i < |r.value| :: r.value[i].0 in globalMemory && globalMemory[r.value[i].0] == r.value[i].1
    {
      var res := VisitNode(tree);
      if res.Err? {
        return Err(res.error);
      }
      var rows := GlobalMemoryRows();
      r := Ok(rows);
    }
  }
}
