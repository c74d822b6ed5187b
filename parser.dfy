/**
 * The recursive-descent parser (part15 parser.rs): an object holding the
 * lexer and the current token, which every `eat` replaces. Each method is
 * proved to compute the function of the same name in `Grammar` from the
 * cursor the parser stands at when it is called.
 */
module Parsing {
  import opened Wrappers
  import opened Tokens
  import opened Lexing
  import opened Syntax
  import opened Grammar

  class Parser {
    const lexer: Lexer
    var currentToken: Kind

    ghost predicate Valid()
      reads this, lexer
    {
      lexer.Valid()
    }

    /** Where the parser stands: the lexer's text and position, and the current token. */
    function View(): Cursor
      reads this, lexer
    {
      Cursor(lexer.line, lexer.pos, currentToken)
    }

    /** A method's result and final state agree with the outcome the parse function gives. */
    predicate Yields<T(==)>(r: Result<T, Error>, p: PResult<T>)
      reads this, lexer
    {
      match p
      case Parsed(v, rest) => r == Ok(v) && View() == rest
      case Failed(e) => r == Err(e)
    }

    constructor (lexer: Lexer, first: Kind)
      ensures this.lexer == lexer && currentToken == first
    {
      this.lexer := lexer;
      currentToken := first;
    }

    /** `Parser::new`: read the first token, or report the lexical error. */
    static method New(lexer: Lexer) returns (r: Result<Parser, Error>)
      requires lexer.Valid()
      modifies lexer
      ensures Scan(lexer.line, old(lexer.pos)).token.Err? ==> r == Err(Scan(lexer.line, old(lexer.pos)).token.error)
      ensures Scan(lexer.line, old(lexer.pos)).token.Ok? ==>
        r.Ok? && fresh(r.value) && r.value.lexer == lexer && r.value.Valid() &&
        r.value.View() == Cursor(lexer.line, lexer.pos, Scan(lexer.line, old(lexer.pos)).token.value) &&
        lexer.pos == Scan(lexer.line, old(lexer.pos)).pos
    {
      var first := lexer.NextToken();
      match first
      case Err(e) =>
        r := Err(e);
      case Ok(k) =>
        var p := new Parser(lexer, k);
        r := Ok(p);
    }

    /**
     * `eat`: on a matching constructor, one step of the lexer; on a mismatch,
     * the current token is reported and nothing moves.
     */
    method Eat(k: Kind) returns (r: Outcome<Error>)
      requires Valid()
      modifies this, lexer
      ensures Valid()
      ensures Grammar.Eat(old(View()), k).Ok? ==> r == Pass && View() == Grammar.Eat(old(View()), k).value
      ensures Grammar.Eat(old(View()), k).Err? ==> r == Fail(Grammar.Eat(old(View()), k).error)
      ensures Tag(old(currentToken)) != Tag(k) ==> View() == old(View())
    {
      if Tag(currentToken) == Tag(k) {
        var next := lexer.NextToken();
        match next
        case Ok(t) =>
          currentToken := t;
          r := Pass;
        case Err(e) =>
          r := Fail(e);
      } else {
        r := Fail(UnexpectedToken(currentToken));
      }
    }

    method Program() returns (r: Result<Ast, Error>)
      requires Valid()
      modifies this, lexer
      ensures Valid() && Yields(r, ParseProgram(old(View())))
    {
      var eaten := Eat(ProgramKw);
      if eaten.Fail? {
        return Err(eaten.error);
      }
      var v :- Variable();
      var programName := v.id;
      :- Eat(Semi);
      var blockNode :- Block();
      var programNode := Ast.Program(programName, blockNode);
      :- Eat(Dot);
      return Ok(programNode);
    }

    method Block() returns (r: Result<Ast, Error>)
      requires Valid()
      modifies this, lexer
      ensures Valid() && Yields(r, ParseBlock(old(View())))
      decreases Rank(View()), 2
    {
      var declarationNodes :- Declarations();
      var compoundStatementNode :- CompoundStatement();
      return Ok(Ast.Block(declarationNodes, compoundStatementNode));
    }

    method Declarations() returns (r: Result<seq<Ast>, Error>)
      requires Valid()
      modifies this, lexer
      ensures Valid() && Yields(r, ParseDeclarations(old(View()), []))
      decreases Rank(View()), 1
    {
      var declarations: seq<Ast> := [];
      while true
        invariant Valid()
        invariant ParseDeclarations(View(), declarations) == ParseDeclarations(old(View()), [])
        invariant Rank(View()) <= Rank(old(View()))
        decreases Rank(View())
      {
        if currentToken == VarKw {
          var eaten := Eat(VarKw);
          if eaten.Fail? {
            return Err(eaten.error);
          }
          ghost var start := View();
          ghost var before := declarations;
          while currentToken.Id?
            invariant Valid()
            invariant ParseVarSection(View(), declarations) == ParseVarSection(start, before)
            invariant Rank(View()) <= Rank(start)
            decreases Rank(View())
          {
            var varDecl :- VariableDeclaration();
            declarations := declarations + varDecl;
            :- Eat(Semi);
          }
        } else if currentToken == ProcedureKw {
          var procedure :- ProcedureDeclaration();
          declarations := declarations + [procedure];
        } else {
          break;
        }
      }
      return Ok(declarations);
    }

    /** The `PROCEDURE` arm of `declarations`. */
    method ProcedureDeclaration() returns (r: Result<Ast, Error>)
      requires Valid()
      modifies this, lexer
      ensures Valid() && Yields(r, ParseProcedureDeclaration(old(View())))
      decreases Rank(View()), 0
    {
      var heading :- ProcedureHeading();
      var blockNode :- Block();
      :- Eat(Semi);
      return Ok(ProcedureDecl(heading.0, heading.1, blockNode));
    }

    /** The heading of a procedure declaration, up to and including its `;`: the name and the parameters. */
    method ProcedureHeading() returns (r: Result<(string, seq<Param>), Error>)
      requires Valid()
      modifies this, lexer
      ensures Valid() && Yields(r, ParseProcedureHeading(old(View())))
    {
      var eaten := Eat(ProcedureKw);
      if eaten.Fail? {
        return Err(eaten.error);
      }
      var id := if currentToken.Id? then currentToken.name else "";
      :- Eat(Id(id));
      var params :- ProcedureParams();
      :- Eat(Semi);
      return Ok((id, params));
    }

    /** The optional `( formal_parameter_list )` of a procedure heading. */
    method ProcedureParams() returns (r: Result<seq<Param>, Error>)
      requires Valid()
      modifies this, lexer
      ensures Valid() && Yields(r, ParseProcedureParams(old(View())))
    {
      var params: seq<Param> := [];
      if currentToken == LParen {
        var eaten := Eat(LParen);
        if eaten.Fail? {
          return Err(eaten.error);
        }
        params :- FormalParameterList();
        :- Eat(RParen);
      }
      return Ok(params);
    }

    method FormalParameters() returns (r: Result<seq<Param>, Error>)
      requires Valid()
      modifies this, lexer
      ensures Valid() && Yields(r, ParseFormalParameters(old(View())))
    {
      var ids: seq<string> := [];
      while true
        invariant Valid()
        invariant ParseParamIds(View(), ids) == ParseParamIds(old(View()), [])
        decreases Rank(View())
      {
        var id := if currentToken.Id? then currentToken.name else "";
        :- Eat(Id(id));
        ids := ids + [id];
        if currentToken == Comma {
          var eaten := Eat(Comma);
          if eaten.Fail? {
            return Err(eaten.error);
          }
          continue;
        }
        break;
      }
      :- Eat(Colon);
      var ttype :- TypeSpec();
      return Ok(Params(ids, ttype));
    }

    method FormalParameterList() returns (r: Result<seq<Param>, Error>)
      requires Valid()
      modifies this, lexer
      ensures Valid() && Yields(r, ParseFormalParameterList(old(View())))
    {
      if !currentToken.Id? {
        return Ok([]);
      }
      var params: seq<Param> := [];
      while true
        invariant Valid()
        invariant ParseParamGroups(View(), params) == ParseParamGroups(old(View()), [])
        decreases Rank(View())
      {
        var group :- FormalParameters();
        params := params + group;
        if currentToken == Semi {
          continue;
        }
        break;
      }
      return Ok(params);
    }

    method VariableDeclaration() returns (r: Result<seq<Ast>, Error>)
      requires Valid()
      modifies this, lexer
      ensures Valid() && Yields(r, ParseVariableDeclaration(old(View())))
    {
      var varIds: seq<string> := [];
      if currentToken.Id? {
        varIds := [currentToken.name];
      }
      :- Eat(currentToken);
      ghost var start := View();
      while currentToken == Comma
        invariant Valid()
        invariant ParseVarIdsTail(View(), varIds) == ParseVarIdsTail(start, IdName(old(currentToken)))
        decreases Rank(View())
      {
        ghost var prior := varIds;
        :- Eat(Comma);
        if currentToken.Id? {
          varIds := varIds + [currentToken.name];
        }
        assert varIds == prior + IdName(currentToken);
        :- Eat(currentToken);
      }
      :- Eat(Colon);
      var varType :- TypeSpec();
      return Ok(VarDecls(varIds, varType, currentToken));
    }

    method TypeSpec() returns (r: Result<VarType, Error>)
      requires Valid()
      modifies this, lexer
      ensures Valid() && Yields(r, ParseTypeSpec(old(View())))
    {
      var varType := if currentToken.TypeName? then currentToken.varType else IntegerType;
      :- Eat(TypeName(varType));
      return Ok(varType);
    }

    method CompoundStatement() returns (r: Result<Ast, Error>)
      requires Valid()
      modifies this, lexer
      ensures Valid() && Yields(r, ParseCompoundStatement(old(View())))
      decreases Rank(View()), 0
    {
      var eaten := Eat(BeginKw);
      if eaten.Fail? {
        return Err(eaten.error);
      }
      var children :- StatementList();
      :- Eat(EndKw);
      return Ok(Compound(children));
    }

    method StatementList() returns (r: Result<seq<Ast>, Error>)
      requires Valid()
      modifies this, lexer
      ensures Valid() && Yields(r, ParseStatementList(old(View())))
      decreases Rank(View()), 2
    {
      var node :- Statement();
      var results := [node];
      while currentToken == Semi
        invariant Valid()
        invariant ParseStatementListTail(View(), results) == ParseStatementList(old(View()))
        invariant Rank(View()) <= Rank(old(View()))
        decreases Rank(View())
      {
        var eaten := Eat(Semi);
        if eaten.Fail? {
          return Err(eaten.error);
        }
        var next :- Statement();
        results := results + [next];
      }
      return Ok(results);
    }

    method Statement() returns (r: Result<Ast, Error>)
      requires Valid()
      modifies this, lexer
      ensures Valid() && Yields(r, ParseStatement(old(View())))
      decreases Rank(View()), 1
    {
      match currentToken
      case BeginKw =>
        r := CompoundStatement();
      case Id(name) =>
        r := AssignmentStatement(name);
      case _ =>
        r := Ok(NoOp);
    }

    method AssignmentStatement(leftId: string) returns (r: Result<Ast, Error>)
      requires Valid()
      modifies this, lexer
      ensures Valid() && Yields(r, ParseAssignmentStatement(old(View()), leftId))
    {
      var left :- Variable();
      :- Eat(Becomes);
      var right :- Expr();
      return Ok(Assign(leftId, left, right));
    }

    method Variable() returns (r: Result<Ast, Error>)
      requires Valid()
      modifies this, lexer
      ensures Valid() && Yields(r, ParseVariable(old(View())))
    {
      var idToken := currentToken;
      var id := if currentToken.Id? then currentToken.name else "";
      :- Eat(Id(id));
      return Ok(Var(id, idToken));
    }

    method Expr() returns (r: Result<Ast, Error>)
      requires Valid()
      modifies this, lexer
      ensures Valid() && Yields(r, ParseExpr(old(View())))
      decreases Rank(View()), 2
    {
      var leftNode :- Term();
      while IsAddOp(currentToken)
        invariant Valid()
        invariant ParseExprTail(View(), leftNode) == ParseExpr(old(View()))
        invariant Rank(View()) < Rank(old(View()))
        decreases Rank(View())
      {
        var op := currentToken;
        :- Eat(op);
        var rightNode :- Term();
        leftNode := BinOp(leftNode, rightNode, op);
      }
      return Ok(leftNode);
    }

    method Term() returns (r: Result<Ast, Error>)
      requires Valid()
      modifies this, lexer
      ensures Valid() && Yields(r, ParseTerm(old(View())))
      decreases Rank(View()), 1
    {
      var leftNode :- Factor();
      while IsMulOp(currentToken)
        invariant Valid()
        invariant ParseTermTail(View(), leftNode) == ParseTerm(old(View()))
        invariant Rank(View()) < Rank(old(View()))
        decreases Rank(View())
      {
        var op := currentToken;
        :- Eat(op);
        var rightNode :- Factor();
        leftNode := BinOp(leftNode, rightNode, op);
      }
      return Ok(leftNode);
    }

    method Factor() returns (r: Result<Ast, Error>)
      requires Valid()
      modifies this, lexer
      ensures Valid() && Yields(r, ParseFactor(old(View())))
      decreases Rank(View()), 0
    {
      var kind := currentToken;
      if IsAddOp(kind) {
        var eaten := Eat(kind);
        if eaten.Fail? {
          return Err(eaten.error);
        }
        var x :- Factor();
        return Ok(UnaryOp(kind, x));
      } else if kind.IntegerConst? {
        var eaten := Eat(kind);
        if eaten.Fail? {
          return Err(eaten.error);
        }
        return Ok(NumInteger(kind.value));
      } else if kind.RealConst? {
        var eaten := Eat(kind);
        if eaten.Fail? {
          return Err(eaten.error);
        }
        return Ok(NumReal(kind.number));
      } else if kind == LParen {
        var eaten := Eat(kind);
        if eaten.Fail? {
          return Err(eaten.error);
        }
        var node :- Expr();
        :- Eat(RParen);
        return Ok(node);
      } else if kind.Id? {
        r := Variable();
      } else {
        r := Err(UnexpectedToken(kind));
      }
    }

    /** `parse`: a program, then the end of the input; any other token left over is reported. */
    method Parse() returns (r: Result<Ast, Error>)
      requires Valid()
      modifies this, lexer
      ensures Valid() && Yields(r, Grammar.Parse(old(View())))
    {
      var node :- Program();
      TagOfEof(currentToken);
      if Tag(currentToken) != Tag(Eof) {
        return Err(UnexpectedToken(currentToken));
      }
      return Ok(node);
    }
  }
}
