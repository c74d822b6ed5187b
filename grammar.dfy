/**
 * What each function of the recursive-descent parser (part15 parser.rs)
 * computes, as pure functions of a `Cursor`: the source text, the lexer's
 * position, and the parser's current token. Each returns the node it builds
 * and the cursor it leaves, or the first error; the parse is fail-fast.
 *
 * The class `Parsing.Parser` is the parser itself and each of its methods is
 * proved to compute the function of the same name here.
 */
module Grammar {
  import opened Wrappers
  import opened Tokens
  import opened Lexing
  import opened Syntax

  /** The parser's view of the input: the text, where the lexer stands, and the current token. */
  datatype Cursor = Cursor(line: string, pos: nat, cur: Kind)

  /** The outcome of a parse function: a value and the cursor after it, or the error that stopped it. */
  datatype PResult<+T> = Parsed(value: T, rest: Cursor) | Failed(error: Error)

  /**
   * A measure that every token consumed makes smaller: the characters left
   * to scan, plus one while the current token is not EOF.
   */
  function Rank(c: Cursor): nat
  {
    (if c.pos < |c.line| then |c.line| - c.pos else 0) + (if c.cur == Eof then 0 else 1)
  }

  /** The cursor after one call of `next_token`, or the lexical error that call reports. */
  function Next(c: Cursor): (r: Result<Cursor, Error>)
    ensures r.Ok? ==> Rank(r.value) <= Rank(c)
    ensures r.Ok? && c.cur != Eof ==> Rank(r.value) < Rank(c)
  {
    var l := Scan(c.line, c.pos);
    match l.token
    case Ok(k) => Ok(Cursor(c.line, l.pos, k))
    case Err(e) => Err(e)
  }

  /**
   * `eat(k)`: when the current token has the same constructor as `k`,
   * whatever the payloads, move to the next token; otherwise report the
   * current token.
   */
  function Eat(c: Cursor, k: Kind): (r: Result<Cursor, Error>)
    ensures r.Ok? ==> Tag(c.cur) == Tag(k) && r == Next(c)
    ensures Tag(c.cur) != Tag(k) ==> r == Err(UnexpectedToken(c.cur))
    ensures r.Ok? ==> Rank(r.value) <= Rank(c)
    ensures r.Ok? && k != Eof ==> Rank(r.value) < Rank(c)
  {
    TagOfEof(c.cur);
    if Tag(c.cur) == Tag(k) then Next(c) else Err(UnexpectedToken(c.cur))
  }

  // ---------------------------------------------------------------------
  // Expressions
  // ---------------------------------------------------------------------

  /** `variable : ID`; the node keeps the identifier's token. */
  function ParseVariable(c: Cursor): (r: PResult<Ast>)
    ensures r.Parsed? ==> c.cur.Id? && r.value == Var(c.cur.name, c.cur) && Rank(r.rest) < Rank(c)
    ensures !c.cur.Id? ==> r == Failed(UnexpectedToken(c.cur))
  {
    var id := if c.cur.Id? then c.cur.name else "";
    match Eat(c, Id(id))
    case Err(e) => Failed(e)
    case Ok(c1) => Parsed(Var(id, c.cur), c1)
  }

  /** `factor : (PLUS | MINUS) factor | INTEGER_CONST | REAL_CONST | LPAREN expr RPAREN | variable` */
  function ParseFactor(c: Cursor): (r: PResult<Ast>)
    ensures r.Parsed? ==> IsExpr(r.value) && Rank(r.rest) < Rank(c)
    decreases Rank(c), 0
  {
    if IsAddOp(c.cur) then
      match Eat(c, c.cur)
      case Err(e) => Failed(e)
      case Ok(c1) =>
        match ParseFactor(c1)
        case Failed(e) => Failed(e)
        case Parsed(x, c2) => Parsed(UnaryOp(c.cur, x), c2)
    else if c.cur.IntegerConst? then
      match Eat(c, c.cur)
      case Err(e) => Failed(e)
      case Ok(c1) => Parsed(NumInteger(c.cur.value), c1)
    else if c.cur.RealConst? then
      match Eat(c, c.cur)
      case Err(e) => Failed(e)
      case Ok(c1) => Parsed(NumReal(c.cur.number), c1)
    else if c.cur == LParen then
      match Eat(c, c.cur)
      case Err(e) => Failed(e)
      case Ok(c1) =>
        match ParseExpr(c1)
        case Failed(e) => Failed(e)
        case Parsed(x, c2) =>
          match Eat(c2, RParen)
          case Err(e) => Failed(e)
          case Ok(c3) => Parsed(x, c3)
    else if c.cur.Id? then
      ParseVariable(c)
    else
      Failed(UnexpectedToken(c.cur))
  }

  /** The loop of `term`: while the current token is `*`, `DIV` or `/`, extend `left` to the left-nested node. */
  function ParseTermTail(c: Cursor, left: Ast): (r: PResult<Ast>)
    ensures r.Parsed? ==> Rank(r.rest) <= Rank(c) && !IsMulOp(r.rest.cur)
    ensures r.Parsed? && IsExpr(left) ==> IsExpr(r.value)
    decreases Rank(c), 0
  {
    if IsMulOp(c.cur) then
      match Eat(c, c.cur)
      case Err(e) => Failed(e)
      case Ok(c1) =>
        match ParseFactor(c1)
        case Failed(e) => Failed(e)
        case Parsed(right, c2) => ParseTermTail(c2, BinOp(left, right, c.cur))
    else
      Parsed(left, c)
  }

  /** `term : factor ((MUL | INTEGER_DIV | FLOAT_DIV) factor)*` */
  function ParseTerm(c: Cursor): (r: PResult<Ast>)
    ensures r.Parsed? ==> IsExpr(r.value) && Rank(r.rest) < Rank(c) && !IsMulOp(r.rest.cur)
    decreases Rank(c), 1
  {
    match ParseFactor(c)
    case Failed(e) => Failed(e)
    case Parsed(f, c1) => ParseTermTail(c1, f)
  }

  /** The loop of `expr`: while the current token is `+` or `-`, extend `left` to the left-nested node. */
  function ParseExprTail(c: Cursor, left: Ast): (r: PResult<Ast>)
    ensures r.Parsed? ==> Rank(r.rest) <= Rank(c) && !IsAddOp(r.rest.cur)
    ensures r.Parsed? && !IsMulOp(c.cur) ==> !IsMulOp(r.rest.cur)
    ensures r.Parsed? && IsExpr(left) ==> IsExpr(r.value)
    decreases Rank(c), 1
  {
    if IsAddOp(c.cur) then
      match Eat(c, c.cur)
      case Err(e) => Failed(e)
      case Ok(c1) =>
        match ParseTerm(c1)
        case Failed(e) => Failed(e)
        case Parsed(right, c2) => ParseExprTail(c2, BinOp(left, right, c.cur))
    else
      Parsed(left, c)
  }

  /** `expr : term ((PLUS | MINUS) term)*` */
  function ParseExpr(c: Cursor): (r: PResult<Ast>)
    ensures r.Parsed? ==> IsExpr(r.value) && Rank(r.rest) < Rank(c)
    ensures r.Parsed? ==> !IsAddOp(r.rest.cur) && !IsMulOp(r.rest.cur)
    decreases Rank(c), 2
  {
    match ParseTerm(c)
    case Failed(e) => Failed(e)
    case Parsed(t, c1) => ParseExprTail(c1, t)
  }

  // ---------------------------------------------------------------------
  // Statements
  // ---------------------------------------------------------------------

  /** `assignment_statement : variable ASSIGN expr`, for the target named `leftId`. */
  function ParseAssignmentStatement(c: Cursor, leftId: string): (r: PResult<Ast>)
    ensures r.Parsed? ==> Rank(r.rest) < Rank(c) && r.value.Assign? && r.value.leftId == leftId
    ensures r.Parsed? && c.cur == Id(leftId) ==> IsStatement(r.value)
  {
    match ParseVariable(c)
    case Failed(e) => Failed(e)
    case Parsed(left, c1) =>
      match Eat(c1, Becomes)
      case Err(e) => Failed(e)
      case Ok(c2) =>
        match ParseExpr(c2)
        case Failed(e) => Failed(e)
        case Parsed(right, c3) => Parsed(Assign(leftId, left, right), c3)
  }

  /** `compound_statement : BEGIN statement_list END` */
  function ParseCompoundStatement(c: Cursor): (r: PResult<Ast>)
    ensures r.Parsed? ==> IsCompound(r.value) && Rank(r.rest) < Rank(c)
    decreases Rank(c), 0
  {
    match Eat(c, BeginKw)
    case Err(e) => Failed(e)
    case Ok(c1) =>
      match ParseStatementList(c1)
      case Failed(e) => Failed(e)
      case Parsed(children, c2) =>
        match Eat(c2, EndKw)
        case Err(e) => Failed(e)
        case Ok(c3) => Parsed(Compound(children), c3)
  }

  /** `statement : compound_statement | assignment_statement | empty`; the empty statement consumes nothing. */
  function ParseStatement(c: Cursor): (r: PResult<Ast>)
    ensures r.Parsed? ==> IsStatement(r.value) && Rank(r.rest) <= Rank(c)
    decreases Rank(c), 1
  {
    match c.cur
    case BeginKw => ParseCompoundStatement(c)
    case Id(name) => ParseAssignmentStatement(c, name)
    case _ => Parsed(NoOp, c)
  }

  /** The loop of `statement_list`: while the current token is `;`, eat it and append one more statement. */
  function ParseStatementListTail(c: Cursor, acc: seq<Ast>): (r: PResult<seq<Ast>>)
    ensures r.Parsed? ==> Rank(r.rest) <= Rank(c) && r.rest.cur != Semi && acc <= r.value
    ensures r.Parsed? && (forall s | s in acc :: IsStatement(s)) ==> forall s | s in r.value :: IsStatement(s)
    decreases Rank(c), 0
  {
    if c.cur == Semi then
      match Eat(c, Semi)
      case Err(e) => Failed(e)
      case Ok(c1) =>
        match ParseStatement(c1)
        case Failed(e) => Failed(e)
        case Parsed(s, c2) => ParseStatementListTail(c2, acc + [s])
    else
      Parsed(acc, c)
  }

  /** `statement_list : statement (SEMI statement)*` */
  function ParseStatementList(c: Cursor): (r: PResult<seq<Ast>>)
    ensures r.Parsed? ==> |r.value| >= 1 && r.rest.cur != Semi && Rank(r.rest) <= Rank(c)
    ensures r.Parsed? ==> forall s | s in r.value :: IsStatement(s)
    decreases Rank(c), 2
  {
    match ParseStatement(c)
    case Failed(e) => Failed(e)
    case Parsed(s, c1) => ParseStatementListTail(c1, [s])
  }

  // ---------------------------------------------------------------------
  // Declarations
  // ---------------------------------------------------------------------

  /** `type_spec : INTEGER | REAL` */
  function ParseTypeSpec(c: Cursor): (r: PResult<VarType>)
    ensures r.Parsed? ==> c.cur == TypeName(r.value) && Rank(r.rest) < Rank(c)
    ensures !c.cur.TypeName? ==> r == Failed(UnexpectedToken(c.cur))
  {
    var t := if c.cur.TypeName? then c.cur.varType else IntegerType;
    match Eat(c, TypeName(t))
    case Err(e) => Failed(e)
    case Ok(c1) => Parsed(t, c1)
  }

  /** The names an identifier token contributes to a variable declaration: its own, or none. */
  function IdName(k: Kind): (ns: seq<string>)
    ensures |ns| <= 1
    ensures ns != [] <==> k.Id?
    ensures k.Id? ==> ns[0] == k.name
  {
    if k.Id? then [k.name] else []
  }

  /**
   * The comma loop of `variable_declaration`: after each `,` the next token
   * is eaten whatever it is, and contributes its name only when it is an
   * identifier.
   */
  function ParseVarIdsTail(c: Cursor, ids: seq<string>): (r: PResult<seq<string>>)
    ensures r.Parsed? ==> Rank(r.rest) <= Rank(c) && r.rest.cur != Comma && ids <= r.value
    decreases Rank(c)
  {
    if c.cur == Comma then
      match Eat(c, Comma)
      case Err(e) => Failed(e)
      case Ok(c1) =>
        match Eat(c1, c1.cur)
        case Err(e) => Failed(e)
        case Ok(c2) => ParseVarIdsTail(c2, ids + IdName(c1.cur))
    else
      Parsed(ids, c)
  }

  /** One `VarDecl` per name, all of the same type, each holding the token that follows the type name. */
  function VarDecls(ids: seq<string>, t: VarType, token: Kind): (ds: seq<Ast>)
    ensures |ds| == |ids|
    ensures forall i :: 0 <= i < |ids| ==> ds[i] == VarDecl(ids[i], t, token)
  {
    seq(|ids|, i requires 0 <= i < |ids| => VarDecl(ids[i], t, token))
  }

  /** `variable_declaration : ID (COMMA ID)* COLON type_spec` */
  function ParseVariableDeclaration(c: Cursor): (r: PResult<seq<Ast>>)
    ensures r.Parsed? ==> Rank(r.rest) < Rank(c)
    ensures r.Parsed? ==> forall d | d in r.value :: d.VarDecl? && d.token == r.rest.cur
  {
    match Eat(c, c.cur)
    case Err(e) => Failed(e)
    case Ok(c1) =>
      match ParseVarIdsTail(c1, IdName(c.cur))
      case Failed(e) => Failed(e)
      case Parsed(ids, c2) =>
        match Eat(c2, Colon)
        case Err(e) => Failed(e)
        case Ok(c3) =>
          match ParseTypeSpec(c3)
          case Failed(e) => Failed(e)
          case Parsed(t, c4) => Parsed(VarDecls(ids, t, c4.cur), c4)
  }

  /** After `VAR`: while the current token is an identifier, one variable declaration and its `;`. */
  function ParseVarSection(c: Cursor, acc: seq<Ast>): (r: PResult<seq<Ast>>)
    ensures r.Parsed? ==> Rank(r.rest) <= Rank(c) && !r.rest.cur.Id? && acc <= r.value
    ensures r.Parsed? ==> forall i :: |acc| <= i < |r.value| ==> r.value[i].VarDecl?
    decreases Rank(c)
  {
    if c.cur.Id? then
      match ParseVariableDeclaration(c)
      case Failed(e) => Failed(e)
      case Parsed(ds, c1) =>
        match Eat(c1, Semi)
        case Err(e) => Failed(e)
        case Ok(c2) => ParseVarSection(c2, acc + ds)
    else
      Parsed(acc, c)
  }

  /** The identifier loop of `formal_parameters`: `ID (COMMA ID)*`. */
  function ParseParamIds(c: Cursor, ids: seq<string>): (r: PResult<seq<string>>)
    ensures r.Parsed? ==> c.cur.Id? && Rank(r.rest) < Rank(c) && r.rest.cur != Comma && |r.value| > |ids| && ids <= r.value
    decreases Rank(c)
  {
    var id := if c.cur.Id? then c.cur.name else "";
    TagOfId(c.cur, id);
    match Eat(c, Id(id))
    case Err(e) => Failed(e)
    case Ok(c1) =>
      if c1.cur == Comma then
        match Eat(c1, Comma)
        case Err(e) => Failed(e)
        case Ok(c2) => ParseParamIds(c2, ids + [id])
      else
        Parsed(ids + [id], c1)
  }

  /** Parameters of one type: one `Param` per name. */
  function Params(ids: seq<string>, t: VarType): (ps: seq<Param>)
    ensures |ps| == |ids|
    ensures forall i :: 0 <= i < |ids| ==> ps[i] == Param(ids[i], t)
  {
    seq(|ids|, i requires 0 <= i < |ids| => Param(ids[i], t))
  }

  /** `formal_parameters : ID (COMMA ID)* COLON type_spec` */
  function ParseFormalParameters(c: Cursor): (r: PResult<seq<Param>>)
    ensures r.Parsed? ==> c.cur.Id? && Rank(r.rest) < Rank(c) && |r.value| >= 1
  {
    match ParseParamIds(c, [])
    case Failed(e) => Failed(e)
    case Parsed(ids, c1) =>
      match Eat(c1, Colon)
      case Err(e) => Failed(e)
      case Ok(c2) =>
        match ParseTypeSpec(c2)
        case Failed(e) => Failed(e)
        case Parsed(t, c3) => Parsed(Params(ids, t), c3)
  }

  /**
   * The loop of `formal_parameter_list`: after a group, a `;` as current
   * token starts the loop again without being eaten.
   */
  function ParseParamGroups(c: Cursor, acc: seq<Param>): (r: PResult<seq<Param>>)
    ensures r.Parsed? ==> Rank(r.rest) < Rank(c) && r.rest.cur != Semi && acc <= r.value
    decreases Rank(c)
  {
    match ParseFormalParameters(c)
    case Failed(e) => Failed(e)
    case Parsed(ps, c1) =>
      if c1.cur == Semi then ParseParamGroups(c1, acc + ps) else Parsed(acc + ps, c1)
  }

  /** `formal_parameter_list`: nothing unless the current token is an identifier. */
  function ParseFormalParameterList(c: Cursor): (r: PResult<seq<Param>>)
    ensures r.Parsed? ==> Rank(r.rest) <= Rank(c)
    ensures !c.cur.Id? ==> r == Parsed([], c)
  {
    if c.cur.Id? then ParseParamGroups(c, []) else Parsed([], c)
  }

  /** The optional parenthesised parameter list of a procedure heading. */
  function ParseProcedureParams(c: Cursor): (r: PResult<seq<Param>>)
    ensures r.Parsed? ==> Rank(r.rest) <= Rank(c)
    ensures c.cur != LParen ==> r == Parsed([], c)
  {
    if c.cur == LParen then
      match Eat(c, LParen)
      case Err(e) => Failed(e)
      case Ok(c1) =>
        match ParseFormalParameterList(c1)
        case Failed(e) => Failed(e)
        case Parsed(ps, c2) =>
          match Eat(c2, RParen)
          case Err(e) => Failed(e)
          case Ok(c3) => Parsed(ps, c3)
    else
      Parsed([], c)
  }

  /**
   * The `PROCEDURE` arm of `declarations`:
   * `PROCEDURE ID (LPAREN formal_parameter_list RPAREN)? SEMI block SEMI`.
   */
  function ParseProcedureDeclaration(c: Cursor): (r: PResult<Ast>)
    ensures r.Parsed? ==> r.value.ProcedureDecl? && IsDeclaration(r.value) && Rank(r.rest) < Rank(c)
    decreases Rank(c), 0
  {
    match ParseProcedureHeading(c)
    case Failed(e) => Failed(e)
    case Parsed(h, c4) =>
      match ParseBlock(c4)
      case Failed(e) => Failed(e)
      case Parsed(b, c5) =>
        match Eat(c5, Semi)
        case Err(e) => Failed(e)
        case Ok(c6) => Parsed(ProcedureDecl(h.0, h.1, b), c6)
  }

  /** `PROCEDURE ID (LPAREN formal_parameter_list RPAREN)? SEMI`: the name and the parameters. */
  function ParseProcedureHeading(c: Cursor): (r: PResult<(string, seq<Param>)>)
    ensures r.Parsed? ==> Rank(r.rest) < Rank(c)
  {
    match Eat(c, ProcedureKw)
    case Err(e) => Failed(e)
    case Ok(c1) =>
      var id := if c1.cur.Id? then c1.cur.name else "";
      match Eat(c1, Id(id))
      case Err(e) => Failed(e)
      case Ok(c2) =>
        match ParseProcedureParams(c2)
        case Failed(e) => Failed(e)
        case Parsed(ps, c3) =>
          match Eat(c3, Semi)
          case Err(e) => Failed(e)
          case Ok(c4) => Parsed((id, ps), c4)
  }

  /**
   * The loop of `declarations`: VAR sections and procedure declarations, in
   * any number and order, until the current token is neither `VAR` nor
   * `PROCEDURE`.
   */
  function ParseDeclarations(c: Cursor, acc: seq<Ast>): (r: PResult<seq<Ast>>)
    ensures r.Parsed? ==> Rank(r.rest) <= Rank(c) && acc <= r.value
    ensures r.Parsed? ==> r.rest.cur != VarKw && r.rest.cur != ProcedureKw
    ensures r.Parsed? && AllDeclarations(acc) ==> AllDeclarations(r.value)
    decreases Rank(c), 1
  {
    if c.cur == VarKw then
      match Eat(c, VarKw)
      case Err(e) => Failed(e)
      case Ok(c1) =>
        match ParseVarSection(c1, acc)
        case Failed(e) => Failed(e)
        case Parsed(acc1, c2) =>
          VarDeclarationsAdded(acc, acc1);
          ParseDeclarations(c2, acc1)
    else if c.cur == ProcedureKw then
      match ParseProcedureDeclaration(c)
      case Failed(e) => Failed(e)
      case Parsed(d, c1) =>
        DeclarationAdded(acc, d);
        assert acc <= acc + [d];
        ParseDeclarations(c1, acc + [d])
    else
      Parsed(acc, c)
  }

  /** Variable declarations appended to a declaration list leave it a declaration list. */
  lemma VarDeclarationsAdded(acc: seq<Ast>, acc1: seq<Ast>)
    requires acc <= acc1 && forall i :: |acc| <= i < |acc1| ==> acc1[i].VarDecl?
    ensures AllDeclarations(acc) ==> AllDeclarations(acc1)
  {
    if AllDeclarations(acc) {
      forall d | d in acc1
        ensures IsDeclaration(d)
      {
        var i :| 0 <= i < |acc1| && acc1[i] == d;
        if i < |acc| {
          assert acc[i] == d;
        }
      }
    }
  }

  /** A declaration appended to a declaration list leaves it a declaration list. */
  lemma DeclarationAdded(acc: seq<Ast>, d: Ast)
    requires IsDeclaration(d)
    ensures AllDeclarations(acc) ==> AllDeclarations(acc + [d])
  {
  }

  /** `block : declarations compound_statement` */
  function ParseBlock(c: Cursor): (r: PResult<Ast>)
    ensures r.Parsed? ==> IsBlock(r.value) && Rank(r.rest) < Rank(c)
    decreases Rank(c), 2
  {
    match ParseDeclarations(c, [])
    case Failed(e) => Failed(e)
    case Parsed(ds, c1) =>
      match ParseCompoundStatement(c1)
      case Failed(e) => Failed(e)
      case Parsed(cs, c2) => Parsed(Block(ds, cs), c2)
  }

  /** `program : PROGRAM variable SEMI block DOT` */
  function ParseProgram(c: Cursor): (r: PResult<Ast>)
    ensures r.Parsed? ==> IsProgram(r.value)
  {
    match Eat(c, ProgramKw)
    case Err(e) => Failed(e)
    case Ok(c1) =>
      match ParseVariable(c1)
      case Failed(e) => Failed(e)
      case Parsed(v, c2) =>
        match Eat(c2, Semi)
        case Err(e) => Failed(e)
        case Ok(c3) =>
          match ParseBlock(c3)
          case Failed(e) => Failed(e)
          case Parsed(b, c4) =>
            match Eat(c4, Dot)
            case Err(e) => Failed(e)
            case Ok(c5) => Parsed(Program(v.id, b), c5)
  }

  /** `parse`: a program followed by the end of the input. */
  function Parse(c: Cursor): (r: PResult<Ast>)
    ensures r.Parsed? ==> IsProgram(r.value) && r.rest.cur == Eof
  {
    match ParseProgram(c)
    case Failed(e) => Failed(e)
    case Parsed(p, c1) =>
      TagOfEof(c1.cur);
      if Tag(c1.cur) != Tag(Eof) then Failed(UnexpectedToken(c1.cur)) else Parsed(p, c1)
  }

  /**
   * `Parser::new` on a fresh `Lexer::new(line)`: the cursor holding the first
   * token of `line`. `Lexer::new` indexes the first character, so the text
   * must not be empty.
   */
  function Start(line: string): (r: Result<Cursor, Error>)
    requires |line| > 0
    ensures r.Ok? ==> r.value.line == line
  {
    var l := Scan(line, 0);
    match l.token
    case Ok(k) => Ok(Cursor(line, l.pos, k))
    case Err(e) => Err(e)
  }

  /** The whole front end on a source text: lex the first token, then parse. */
  function ParseSource(line: string): (r: PResult<Ast>)
    requires |line| > 0
    ensures r.Parsed? ==> IsProgram(r.value) && r.rest.cur == Eof
  {
    match Start(line)
    case Err(e) => Failed(e)
    case Ok(c) => Parse(c)
  }
}
