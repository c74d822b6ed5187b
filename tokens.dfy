/**
 * Token kinds, the two declared types of the language, the abstract
 * single-precision payload of real literals, and the error kinds every
 * stage reports (part15 token.rs and errors.rs).
 */
module Tokens {

  /** The two type names of the language (INTEGER and REAL). */
  datatype VarType = IntegerType | RealType

  /** The spelling of a type name, as stored in the builtin symbols. */
  function TypeNameText(t: VarType): string
  {
    match t
    case IntegerType => "INTEGER"
    case RealType => "REAL"
  }

  /**
   * An f32 value, kept symbolic: a literal is its digit text, and every
   * operation the interpreter performs on reals builds a term. Rounding is
   * not modelled.
   */
  datatype F32 =
    | Literal(text: string)
    | FromInt(n: int)
    | Sum(a: F32, b: F32)
    | Difference(a: F32, b: F32)
    | Product(a: F32, b: F32)
    | Quotient(a: F32, b: F32)
    | Negated(a: F32)

  /** The token kinds. Source positions are not modelled. */
  datatype Kind =
    | IntegerConst(value: int)
    | RealConst(number: F32)
    | Plus
    | Minus
    | Mul
    | Comma
    | Colon
    | LParen
    | RParen
    | Id(name: string)
    | Becomes
    | BeginKw
    | ProgramKw
    | VarKw
    | IntegerDiv
    | FloatDiv
    | TypeName(varType: VarType)
    | EndKw
    | Semi
    | Dot
    | Eof
    | ProcedureKw

  /**
   * The constructor of a kind, without its payload: what
   * `std::mem::discriminant` compares.
   */
  function Tag(k: Kind): (t: nat)
    ensures t < 22
    ensures t == 9 <==> k.Id?
    ensures t == 20 <==> k == Eof
  {
    match k
    case IntegerConst(_) => 0
    case RealConst(_) => 1
    case Plus => 2
    case Minus => 3
    case Mul => 4
    case Comma => 5
    case Colon => 6
    case LParen => 7
    case RParen => 8
    case Id(_) => 9
    case Becomes => 10
    case BeginKw => 11
    case ProgramKw => 12
    case VarKw => 13
    case IntegerDiv => 14
    case FloatDiv => 15
    case TypeName(_) => 16
    case EndKw => 17
    case Semi => 18
    case Dot => 19
    case Eof => 20
    case ProcedureKw => 21
  }

  /** Only EOF has EOF's tag. */
  lemma TagOfEof(k: Kind)
    ensures Tag(k) == Tag(Eof) <==> k == Eof
  {
  }

  /** Only identifiers have an identifier's tag. */
  lemma TagOfId(k: Kind, name: string)
    ensures Tag(k) == Tag(Id(name)) <==> k.Id?
  {
  }

  /** The error kinds; each carries the offending token, except the lexical one. */
  datatype Error =
    | UnexpectedToken(token: Kind)
    | IdNotFound(token: Kind)
    | DuplicateId(token: Kind)
    | InvalidCharacter(ch: char)
}
