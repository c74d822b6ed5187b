/**
 * The syntax tree the parser builds (part15 parser.rs, `Param` and `AST`),
 * and the shapes of tree the parser can produce.
 */
module Syntax {
  import opened Tokens

  /** A formal parameter of a procedure: its name and declared type. */
  datatype Param = Param(id: string, ttype: VarType)

  datatype Ast =
    | Program(name: string, block: Ast)
    | Block(declarations: seq<Ast>, compound: Ast)
    | VarDecl(id: string, varType: VarType, token: Kind)
    | ProcedureDecl(id: string, params: seq<Param>, body: Ast)
    | NumInteger(value: int)
    | NumReal(number: F32)
    | BinOp(left: Ast, right: Ast, op: Kind)
    | UnaryOp(op: Kind, expr: Ast)
    | Compound(children: seq<Ast>)
    | Assign(leftId: string, left: Ast, right: Ast)
    | Var(id: string, token: Kind)
    | NoOp

  /** The additive operators, which bind loosest. */
  predicate IsAddOp(k: Kind)
  {
    k == Plus || k == Minus
  }

  /** The multiplicative operators, which bind tighter than the additive ones. */
  predicate IsMulOp(k: Kind)
  {
    k == Mul || k == IntegerDiv || k == FloatDiv
  }

  /** An expression tree: literals, variables, unary `+`/`-` and binary operators. */
  predicate IsExpr(e: Ast)
  {
    match e
    case NumInteger(_) => true
    case NumReal(_) => true
    case Var(id, token) => token == Id(id)
    case UnaryOp(op, x) => IsAddOp(op) && IsExpr(x)
    case BinOp(l, r, op) => (IsAddOp(op) || IsMulOp(op)) && IsExpr(l) && IsExpr(r)
    case _ => false
  }

  /** A statement tree: a non-empty compound, an assignment to a variable, or the empty statement. */
  predicate IsStatement(s: Ast)
    decreases s, 1
  {
    match s
    case Compound(children) => IsCompound(s)
    case Assign(leftId, left, right) => left == Var(leftId, Id(leftId)) && IsExpr(right)
    case NoOp => true
    case _ => false
  }

  /** A `BEGIN ... END` statement: at least one statement, each of statement shape. */
  predicate IsCompound(s: Ast)
    decreases s, 0
  {
    s.Compound? && |s.children| >= 1 && forall c | c in s.children :: IsStatement(c)
  }

  /** A declaration: a variable, or a procedure whose body is a block. */
  predicate IsDeclaration(d: Ast)
  {
    match d
    case VarDecl(_, _, _) => true
    case ProcedureDecl(_, _, body) => IsBlock(body)
    case _ => false
  }

  /** Every entry of a declaration list is a declaration. */
  predicate AllDeclarations(ds: seq<Ast>)
  {
    forall d | d in ds :: IsDeclaration(d)
  }

  /** A block: declarations followed by a compound statement. */
  predicate IsBlock(b: Ast)
  {
    b.Block? && AllDeclarations(b.declarations) && IsCompound(b.compound)
  }

  /** A whole program. */
  predicate IsProgram(p: Ast)
  {
    p.Program? && IsBlock(p.block)
  }
}
