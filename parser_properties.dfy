/**
 * Properties of the parse functions, stated over the token stream a cursor
 * stands on rather than over the source text.
 */
module ParserProperties {
  import opened Wrappers
  import opened Tokens
  import opened Syntax
  import opened Grammar

  // ---------------------------------------------------------------------
  // Token streams
  // ---------------------------------------------------------------------

  /**
   * The cursor reached by reading exactly the tokens `ts` from `c`, when the
   * input at `c` starts with them: its current token is the one after them.
   */
  function Walk(c: Cursor, ts: seq<Kind>): (r: Option<Cursor>)
    ensures ts == [] ==> r == Some(c)
    decreases |ts|
  {
    if ts == [] then Some(c)
    else if c.cur != ts[0] then None
    else
      match Next(c)
      case Err(_) => None
      case Ok(c1) => Walk(c1, ts[1..])
  }

  /** Reading `a + b` is reading `a`, then `b`. */
  lemma {:induction false} WalkAppend(c: Cursor, a: seq<Kind>, b: seq<Kind>)
    ensures Walk(c, a + b) == (if Walk(c, a).None? then None else Walk(Walk(c, a).value, b))
    decreases |a|
  {
    if a == [] {
      assert a + b == b;
    } else {
      assert a + b != [];
      assert (a + b)[0] == a[0];
      assert (a + b)[1..] == a[1..] + b;
      if c.cur == a[0] && Next(c).Ok? {
        WalkAppend(Next(c).value, a[1..], b);
      }
    }
  }

  /** Reading one token: the current token is `k`, and the lexer's next step succeeds. */
  lemma WalkOne(c: Cursor, k: Kind, ts: seq<Kind>)
    requires Walk(c, [k] + ts).Some?
    ensures c.cur == k && Next(c).Ok? && Walk(c, [k] + ts) == Walk(Next(c).value, ts)
  {
    assert ([k] + ts)[0] == k;
    assert ([k] + ts)[1..] == ts;
  }

  // ---------------------------------------------------------------------
  // eat and parse
  // ---------------------------------------------------------------------

  /** `eat` looks only at the constructor: two kinds with the same tag are eaten alike. */
  lemma EatIgnoresPayload(c: Cursor, k1: Kind, k2: Kind)
    requires Tag(k1) == Tag(k2)
    ensures Eat(c, k1) == Eat(c, k2)
  {
  }

  /** `eat` succeeds exactly when the tags agree and the lexer's next step succeeds. */
  lemma EatAccepts(c: Cursor, k: Kind)
    ensures Eat(c, k).Ok? <==> Tag(c.cur) == Tag(k) && Next(c).Ok?
  {
  }

  /** `parse` succeeds exactly when a program is followed by EOF; any other token is reported. */
  lemma TrailingTokenRejected(c: Cursor)
    ensures Parse(c).Parsed? <==> ParseProgram(c).Parsed? && ParseProgram(c).rest.cur == Eof
    ensures ParseProgram(c).Parsed? && ParseProgram(c).rest.cur != Eof ==>
      Parse(c) == Failed(UnexpectedToken(ParseProgram(c).rest.cur))
  {
    if ParseProgram(c).Parsed? {
      TagOfEof(ParseProgram(c).rest.cur);
    }
  }

  // ---------------------------------------------------------------------
  // Expressions: precedence and left associativity
  // ---------------------------------------------------------------------

  /**
   * The tokens of an expression tree written with the fewest parentheses the
   * grammar needs: an additive node's right operand and a multiplicative
   * node's right operand are written one level tighter, so a chain of equal
   * precedence is read as nested to the left.
   */
  function ExprTokens(e: Ast): seq<Kind>
    requires IsExpr(e)
    decreases e, if e.BinOp? && IsAddOp(e.op) then 0 else if e.BinOp? then 1 else 2
  {
    if e.BinOp? && IsAddOp(e.op) then ExprTokens(e.left) + [e.op] + TermTokens(e.right)
    else TermTokens(e)
  }

  function TermTokens(e: Ast): seq<Kind>
    requires IsExpr(e)
    decreases e, if e.BinOp? && IsAddOp(e.op) then 2 else if e.BinOp? then 0 else 1
  {
    if e.BinOp? && IsMulOp(e.op) then TermTokens(e.left) + [e.op] + FactorTokens(e.right)
    else FactorTokens(e)
  }

  function FactorTokens(e: Ast): seq<Kind>
    requires IsExpr(e)
    decreases e, if e.BinOp? && IsAddOp(e.op) then 1 else if e.BinOp? then 2 else 0
  {
    match e
    case NumInteger(v) => [IntegerConst(v)]
    case NumReal(x) => [RealConst(x)]
    case Var(id, _) => [Id(id)]
    case UnaryOp(op, x) => [op] + FactorTokens(x)
    case BinOp(_, _, _) => [LParen] + ExprTokens(e) + [RParen]
  }

  /** `factor` reads back the tree whose factor tokens it stands on. */
  lemma {:induction false} FactorRoundTrip(e: Ast, c: Cursor, c2: Cursor)
    requires IsExpr(e) && Walk(c, FactorTokens(e)) == Some(c2)
    ensures ParseFactor(c) == Parsed(e, c2)
    decreases e, if e.BinOp? && IsAddOp(e.op) then 6 else if e.BinOp? then 8 else 2
  {
    match e
    case NumInteger(v) =>
      WalkOne(c, IntegerConst(v), []);
    case NumReal(x) =>
      WalkOne(c, RealConst(x), []);
    case Var(id, _) =>
      WalkOne(c, Id(id), []);
    case UnaryOp(op, x) =>
      WalkOne(c, op, FactorTokens(x));
      FactorRoundTrip(x, Next(c).value, c2);
    case BinOp(_, _, _) =>
      ParenRoundTrip(e, c, c2);
  }

  /** A parenthesised factor: `(`, the expression tokens, `)`. */
  lemma {:induction false} ParenRoundTrip(e: Ast, c: Cursor, c2: Cursor)
    requires IsExpr(e) && e.BinOp? && Walk(c, [LParen] + ExprTokens(e) + [RParen]) == Some(c2)
    ensures ParseFactor(c) == Parsed(e, c2)
    decreases e, if IsAddOp(e.op) then 5 else 7
  {
    WalkAppend(c, [LParen] + ExprTokens(e), [RParen]);
    WalkAppend(c, [LParen], ExprTokens(e));
    WalkOne(c, LParen, []);
    var c1 := Next(c).value;
    var cm := Walk(c1, ExprTokens(e)).value;
    WalkOne(cm, RParen, []);
    ExprRoundTrip(e, c1, cm);
    assert Eat(c, c.cur) == Ok(c1);
    assert Eat(cm, RParen) == Ok(c2);
  }

  /** `term` reads the term tokens of `e` and stops in its loop with `e` as the left operand. */
  lemma {:induction false} TermPrefix(e: Ast, c: Cursor, cm: Cursor)
    requires IsExpr(e) && Walk(c, TermTokens(e)) == Some(cm)
    ensures ParseTerm(c) == ParseTermTail(cm, e)
    decreases e, if e.BinOp? && IsAddOp(e.op) then 8 else if e.BinOp? then 2 else 4
  {
    if e.BinOp? && IsMulOp(e.op) {
      WalkAppend(c, TermTokens(e.left) + [e.op], FactorTokens(e.right));
      WalkAppend(c, TermTokens(e.left), [e.op]);
      var cl := Walk(c, TermTokens(e.left)).value;
      WalkOne(cl, e.op, []);
      TermPrefix(e.left, c, cl);
      FactorRoundTrip(e.right, Next(cl).value, cm);
    } else {
      FactorRoundTrip(e, c, cm);
    }
  }

  /** `expr` reads the expression tokens of `e` and stops in its loop with `e` as the left operand. */
  lemma {:induction false} ExprPrefix(e: Ast, c: Cursor, cm: Cursor)
    requires IsExpr(e) && Walk(c, ExprTokens(e)) == Some(cm) && !IsMulOp(cm.cur)
    ensures ParseExpr(c) == ParseExprTail(cm, e)
    decreases e, if e.BinOp? && IsAddOp(e.op) then 2 else if e.BinOp? then 4 else 6
  {
    if e.BinOp? && IsAddOp(e.op) {
      WalkAppend(c, ExprTokens(e.left) + [e.op], TermTokens(e.right));
      WalkAppend(c, ExprTokens(e.left), [e.op]);
      var cl := Walk(c, ExprTokens(e.left)).value;
      WalkOne(cl, e.op, []);
      ExprPrefix(e.left, c, cl);
      TermPrefix(e.right, Next(cl).value, cm);
    } else {
      TermPrefix(e, c, cm);
    }
  }

  /**
   * Precedence and left associativity: on the tokens of any expression tree,
   * followed by a token that is not an operator, `expr` rebuilds exactly
   * that tree and stops at the follower.
   */
  lemma {:induction false} ExprRoundTrip(e: Ast, c: Cursor, cm: Cursor)
    requires IsExpr(e) && Walk(c, ExprTokens(e)) == Some(cm)
    requires !IsAddOp(cm.cur) && !IsMulOp(cm.cur)
    ensures ParseExpr(c) == Parsed(e, cm)
    decreases e, if e.BinOp? && IsAddOp(e.op) then 4 else if e.BinOp? then 6 else 8
  {
    ExprPrefix(e, c, cm);
  }

  /** `x - y - z` is `(x - y) - z`. */
  lemma SubtractionNestsLeft(c: Cursor, cm: Cursor, x: string, y: string, z: string)
    requires Walk(c, [Id(x), Minus, Id(y), Minus, Id(z)]) == Some(cm)
    requires !IsAddOp(cm.cur) && !IsMulOp(cm.cur)
    ensures ParseExpr(c) == Parsed(BinOp(BinOp(Var(x, Id(x)), Var(y, Id(y)), Minus), Var(z, Id(z)), Minus), cm)
  {
    DifferenceTokens(x, y, z);
    ExprRoundTrip(BinOp(BinOp(Var(x, Id(x)), Var(y, Id(y)), Minus), Var(z, Id(z)), Minus), c, cm);
  }

  /** `(x - y) - z` is written `x - y - z`. */
  lemma DifferenceTokens(x: string, y: string, z: string)
    ensures var e := BinOp(BinOp(Var(x, Id(x)), Var(y, Id(y)), Minus), Var(z, Id(z)), Minus);
      IsExpr(e) && ExprTokens(e) == [Id(x), Minus, Id(y), Minus, Id(z)]
  {
    var vx, vy, vz := Var(x, Id(x)), Var(y, Id(y)), Var(z, Id(z));
    var l := BinOp(vx, vy, Minus);
    var e := BinOp(l, vz, Minus);
    AtomTokens(vx);
    AtomTokens(vy);
    AtomTokens(vz);
    assert ExprTokens(l) == [Id(x)] + [Minus] + [Id(y)];
    assert ExprTokens(e) == ExprTokens(l) + [Minus] + [Id(z)];
  }

  /** `x + y * z` is `x + (y * z)`: multiplication binds tighter. */
  lemma MultiplicationBindsTighter(c: Cursor, cm: Cursor, x: string, y: string, z: string)
    requires Walk(c, [Id(x), Plus, Id(y), Mul, Id(z)]) == Some(cm)
    requires !IsAddOp(cm.cur) && !IsMulOp(cm.cur)
    ensures ParseExpr(c) == Parsed(BinOp(Var(x, Id(x)), BinOp(Var(y, Id(y)), Var(z, Id(z)), Mul), Plus), cm)
  {
    SumOfProductTokens(x, y, z);
    ExprRoundTrip(BinOp(Var(x, Id(x)), BinOp(Var(y, Id(y)), Var(z, Id(z)), Mul), Plus), c, cm);
  }

  /** `x + (y * z)` is written `x + y * z`, with no parentheses. */
  lemma SumOfProductTokens(x: string, y: string, z: string)
    ensures var e := BinOp(Var(x, Id(x)), BinOp(Var(y, Id(y)), Var(z, Id(z)), Mul), Plus);
      IsExpr(e) && ExprTokens(e) == [Id(x), Plus, Id(y), Mul, Id(z)]
  {
    var vx, vy, vz := Var(x, Id(x)), Var(y, Id(y)), Var(z, Id(z));
    var r := BinOp(vy, vz, Mul);
    var e := BinOp(vx, r, Plus);
    AtomTokens(vx);
    AtomTokens(vy);
    AtomTokens(vz);
    assert TermTokens(r) == [Id(y)] + [Mul] + [Id(z)];
    assert ExprTokens(e) == [Id(x)] + [Plus] + TermTokens(r);
  }

  /** A variable is written as its one token at every precedence level. */
  lemma AtomTokens(v: Ast)
    requires v.Var? && v.token == Id(v.id)
    ensures IsExpr(v)
    ensures ExprTokens(v) == TermTokens(v) == FactorTokens(v) == [Id(v.id)]
  {
  }

  /** Leading signs nest: `- - 5` is a minus applied to a minus applied to 5. */
  lemma UnarySignsNest(c: Cursor, c2: Cursor)
    requires Walk(c, [Minus, Minus, IntegerConst(5)]) == Some(c2)
    ensures ParseFactor(c) == Parsed(UnaryOp(Minus, UnaryOp(Minus, NumInteger(5))), c2)
  {
    var e := UnaryOp(Minus, UnaryOp(Minus, NumInteger(5)));
    assert FactorTokens(e) == [Minus, Minus, IntegerConst(5)];
    FactorRoundTrip(e, c, c2);
  }

  /** A factor cannot start with any other token: it is reported as unexpected. */
  lemma FactorRejects(c: Cursor)
    requires !IsAddOp(c.cur) && !c.cur.IntegerConst? && !c.cur.RealConst? && c.cur != LParen && !c.cur.Id?
    ensures ParseFactor(c) == Failed(UnexpectedToken(c.cur))
    ensures ParseExpr(c) == Failed(UnexpectedToken(c.cur))
  {
  }

  /** With no operand after `:=`, the assignment fails naming the token that follows `:=`. */
  lemma MissingOperandAfterBecomes(c: Cursor, name: string, c2: Cursor)
    requires Walk(c, [Id(name), Becomes]) == Some(c2)
    requires !IsAddOp(c2.cur) && !c2.cur.IntegerConst? && !c2.cur.RealConst? && c2.cur != LParen && !c2.cur.Id?
    ensures ParseStatement(c) == Failed(UnexpectedToken(c2.cur))
  {
    WalkOne(c, Id(name), [Becomes]);
    WalkOne(Next(c).value, Becomes, []);
    FactorRejects(c2);
  }

  // ---------------------------------------------------------------------
  // Statements
  // ---------------------------------------------------------------------

  /** A statement is empty exactly when it starts with neither `BEGIN` nor an identifier; it consumes nothing. */
  lemma EmptyStatement(c: Cursor)
    ensures ParseStatement(c) == Parsed(NoOp, c) <==> !c.cur.BeginKw? && !c.cur.Id?
  {
  }

  // ---------------------------------------------------------------------
  // Declarations
  // ---------------------------------------------------------------------

  /** The tokens `, n1 , n2 ...` for the names `ns`. */
  function CommaIds(ns: seq<string>): (ts: seq<Kind>)
    ensures |ts| == 2 * |ns|
  {
    if ns == [] then [] else [Comma, Id(ns[0])] + CommaIds(ns[1..])
  }

  /** Putting the first element of `s` after `a`, then the rest of `s`, is appending `s`. */
  lemma AppendFirst<T>(a: seq<T>, s: seq<T>)
    requires s != []
    ensures a + [s[0]] + s[1..] == a + s
  {
    assert a + s == a + ([s[0]] + s[1..]);
  }

  lemma CommaIdsCons(ns: seq<string>)
    requires ns != []
    ensures CommaIds(ns) == [Comma] + ([Id(ns[0])] + CommaIds(ns[1..]))
  {
  }

  /** One turn of the comma loop of `variable_declaration`. */
  lemma VarIdsStep(c: Cursor, ids: seq<string>, c1: Cursor, c3: Cursor)
    requires c.cur == Comma && Next(c) == Ok(c1) && Next(c1) == Ok(c3)
    ensures ParseVarIdsTail(c, ids) == ParseVarIdsTail(c3, ids + IdName(c1.cur))
  {
    assert Eat(c, Comma) == Ok(c1);
    assert Eat(c1, c1.cur) == Ok(c3);
  }

  /** The comma loop of `variable_declaration` collects the names after the commas, in order. */
  lemma {:induction false} VarIdsRead(c: Cursor, ids: seq<string>, ns: seq<string>, c2: Cursor)
    requires Walk(c, CommaIds(ns)) == Some(c2) && c2.cur != Comma
    ensures ParseVarIdsTail(c, ids) == Parsed(ids + ns, c2)
    decreases |ns|
  {
    if ns == [] {
      assert ids + ns == ids;
    } else {
      var rest := CommaIds(ns[1..]);
      CommaIdsCons(ns);
      WalkOne(c, Comma, [Id(ns[0])] + rest);
      var c1 := Next(c).value;
      WalkOne(c1, Id(ns[0]), rest);
      var c3 := Next(c1).value;
      VarIdsStep(c, ids, c1, c3);
      VarIdsRead(c3, ids + [ns[0]], ns[1..], c2);
      AppendFirst(ids, ns);
    }
  }

  /** `variable_declaration` from its parts: the first name, the comma loop, then `: T`. */
  lemma VariableDeclarationParts(c: Cursor, n: string, ids: seq<string>, cm: Cursor, t: VarType, c2: Cursor)
    requires c.cur == Id(n) && Next(c).Ok?
    requires ParseVarIdsTail(Next(c).value, [n]) == Parsed(ids, cm)
    requires Walk(cm, [Colon, TypeName(t)]) == Some(c2)
    ensures ParseVariableDeclaration(c) == Parsed(VarDecls(ids, t, c2.cur), c2)
  {
    assert IdName(c.cur) == [n];
    WalkOne(cm, Colon, [TypeName(t)]);
    WalkOne(Next(cm).value, TypeName(t), []);
  }

  /**
   * `a, b, c : T` declares one variable per name, in source order, all of
   * type T.
   */
  lemma VariableDeclarationList(c: Cursor, n: string, ns: seq<string>, t: VarType, c2: Cursor)
    requires Walk(c, [Id(n)] + CommaIds(ns) + [Colon, TypeName(t)]) == Some(c2)
    ensures ParseVariableDeclaration(c) == Parsed(VarDecls([n] + ns, t, c2.cur), c2)
  {
    WalkAppend(c, [Id(n)] + CommaIds(ns), [Colon, TypeName(t)]);
    WalkAppend(c, [Id(n)], CommaIds(ns));
    WalkOne(c, Id(n), []);
    var c1 := Next(c).value;
    var cm := Walk(c1, CommaIds(ns)).value;
    assert cm.cur == Colon by {
      WalkOne(cm, Colon, [TypeName(t)]);
    }
    VarIdsRead(c1, [n], ns, cm);
    VariableDeclarationParts(c, n, [n] + ns, cm, t, c2);
  }

  /** After a comma any token is eaten; one that is not an identifier adds no name. */
  lemma NonIdentifierEaten(c: Cursor, ids: seq<string>, k: Kind, cm: Cursor)
    requires !k.Id? && Walk(c, [Comma, k]) == Some(cm) && cm.cur != Comma
    ensures ParseVarIdsTail(c, ids) == Parsed(ids, cm)
  {
    WalkOne(c, Comma, [k]);
    var c1 := Next(c).value;
    WalkOne(c1, k, []);
    VarIdsStep(c, ids, c1, cm);
    assert ids + IdName(k) == ids;
  }

  /** After a comma any token is eaten; one that is not an identifier declares nothing. */
  lemma NonIdentifierAfterCommaSkipped(c: Cursor, n: string, k: Kind, t: VarType, c2: Cursor)
    requires !k.Id?
    requires Walk(c, [Id(n)] + [Comma, k] + [Colon, TypeName(t)]) == Some(c2)
    ensures ParseVariableDeclaration(c) == Parsed([VarDecl(n, t, c2.cur)], c2)
  {
    WalkAppend(c, [Id(n)] + [Comma, k], [Colon, TypeName(t)]);
    WalkAppend(c, [Id(n)], [Comma, k]);
    WalkOne(c, Id(n), []);
    var c1 := Next(c).value;
    var cm := Walk(c1, [Comma, k]).value;
    assert cm.cur == Colon by {
      WalkOne(cm, Colon, [TypeName(t)]);
    }
    NonIdentifierEaten(c1, [n], k, cm);
    VariableDeclarationParts(c, n, [n], cm, t, c2);
    VarDeclsOne(n, t, c2.cur);
  }

  /** A declaration of one name is one variable declaration. */
  lemma VarDeclsOne(n: string, t: VarType, token: Kind)
    ensures VarDecls([n], t, token) == [VarDecl(n, t, token)]
  {
    assert VarDecls([n], t, token)[0] == VarDecl(n, t, token);
  }

  /** A `VAR` with no declaration after it is accepted and adds nothing. */
  lemma EmptyVarSection(c: Cursor, acc: seq<Ast>)
    requires c.cur == VarKw && Next(c).Ok? && !Next(c).value.cur.Id?
    ensures ParseDeclarations(c, acc) == ParseDeclarations(Next(c).value, acc)
  {
  }

  /** One name of the identifier loop of `formal_parameters`, followed by a comma. */
  lemma ParamIdsStep(c: Cursor, ids: seq<string>, n: string, c1: Cursor, c3: Cursor)
    requires c.cur == Id(n) && Next(c) == Ok(c1) && c1.cur == Comma && Next(c1) == Ok(c3)
    ensures ParseParamIds(c, ids) == ParseParamIds(c3, ids + [n])
  {
    assert Eat(c, Id(n)) == Ok(c1);
    assert Eat(c1, Comma) == Ok(c3);
  }

  /** The identifier loop of `formal_parameters` collects every name, in order. */
  lemma {:induction false} ParamIdsRead(c: Cursor, ids: seq<string>, n: string, ns: seq<string>, c2: Cursor)
    requires Walk(c, [Id(n)] + CommaIds(ns)) == Some(c2) && c2.cur != Comma
    ensures ParseParamIds(c, ids) == Parsed(ids + [n] + ns, c2)
    decreases |ns|
  {
    WalkOne(c, Id(n), CommaIds(ns));
    var c1 := Next(c).value;
    if ns == [] {
      assert Eat(c, Id(n)) == Ok(c1);
      assert ids + [n] + ns == ids + [n];
    } else {
      CommaIdsCons(ns);
      WalkOne(c1, Comma, [Id(ns[0])] + CommaIds(ns[1..]));
      var c3 := Next(c1).value;
      ParamIdsStep(c, ids, n, c1, c3);
      ParamIdsRead(c3, ids + [n], ns[0], ns[1..], c2);
      AppendFirst(ids + [n], ns);
    }
  }

  /** `formal_parameters` from its parts: the identifier loop, then `: T`. */
  lemma FormalParametersParts(c: Cursor, ids: seq<string>, cm: Cursor, t: VarType, c2: Cursor)
    requires ParseParamIds(c, []) == Parsed(ids, cm)
    requires Walk(cm, [Colon, TypeName(t)]) == Some(c2)
    ensures ParseFormalParameters(c) == Parsed(Params(ids, t), c2)
  {
    WalkOne(cm, Colon, [TypeName(t)]);
    WalkOne(Next(cm).value, TypeName(t), []);
  }

  /** `a, b : T` as a parameter group gives one parameter per name, in order, all of type T. */
  lemma ParameterGroup(c: Cursor, n: string, ns: seq<string>, t: VarType, c2: Cursor)
    requires Walk(c, [Id(n)] + CommaIds(ns) + [Colon, TypeName(t)]) == Some(c2)
    ensures ParseFormalParameters(c) == Parsed(Params([n] + ns, t), c2)
  {
    WalkAppend(c, [Id(n)] + CommaIds(ns), [Colon, TypeName(t)]);
    var cm := Walk(c, [Id(n)] + CommaIds(ns)).value;
    assert cm.cur == Colon by {
      WalkOne(cm, Colon, [TypeName(t)]);
    }
    ParamIdsRead(c, [], n, ns, cm);
    assert [] + [n] + ns == [n] + ns;
    FormalParametersParts(c, [n] + ns, cm, t, c2);
  }

  /** A single parameter group is the whole parameter list when no `;` follows it. */
  lemma SingleParameterGroup(c: Cursor, ps: seq<Param>, c1: Cursor)
    requires ParseFormalParameters(c) == Parsed(ps, c1) && c1.cur != Semi
    ensures ParseFormalParameterList(c) == Parsed(ps, c1)
  {
    assert [] + ps == ps;
  }

  /**
   * The `;` after a parameter group is never eaten, so a second group is
   * read from that `;` and is rejected there.
   */
  lemma SecondParameterGroupRejected(c: Cursor, ps: seq<Param>, c1: Cursor)
    requires ParseFormalParameters(c) == Parsed(ps, c1) && c1.cur == Semi
    ensures ParseFormalParameterList(c) == Failed(UnexpectedToken(Semi))
  {
    assert ParseFormalParameters(c1) == Failed(UnexpectedToken(Semi));
    assert ParseParamGroups(c1, [] + ps) == Failed(UnexpectedToken(Semi));
  }
}
