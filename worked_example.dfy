/**
 * The running example as source text. The scanner reads it as the expected
 * tokens and the parser builds `AnalyzerProperties.Example()` from them, so
 * the facts proved about that tree (it passes the semantic analysis, it
 * leaves `a = 2` and `b = 5` in memory) hold of the text itself.
 */
module WorkedExample {
  import opened Wrappers
  import opened Tokens
  import opened Syntax
  import opened Lexing
  import opened LexerProperties
  import opened Grammar
  import opened ParserProperties
  import opened Symbols
  import opened Semantic
  import opened Interpreting
  import AnalyzerProperties
  import InterpreterProperties

  /**
   * `PROGRAM P1; VAR a,b:INTEGER; BEGIN a:=2; b:=10 DIV a; END.`, written as
   * short pieces, each holding whole tokens.
   */
  const Text: string :=
    (("PROGRAM " + "P1; VAR ") + ("a,b:" + "INTEGER;")) + ((" BEGIN " + "a:=2; ") + ("b:=10 " + "DIV a; END."))

  // ---------------------------------------------------------------------
  // Scanning the text
  // ---------------------------------------------------------------------

  /** `Parser::new` on the text stands on `PROGRAM`. */
  lemma Starts()
    ensures Start(Text) == Ok(Cursor(Text, 7, ProgramKw))
  {
    assert Text[0..7] == "PROGRAM";
    WordToken(Text, 0, 7);
  }

  // Each word and number of the text, scanned from its first character.

  lemma WordAt8()
    ensures Scan(Text, 8) == Lexed(Ok(Id("P1")), 10)
  {
    assert Text[8..10] == "P1";
    WordToken(Text, 8, 10);
  }

  lemma WordAt12()
    ensures Scan(Text, 12) == Lexed(Ok(VarKw), 15)
  {
    assert Text[12..15] == "VAR";
    WordToken(Text, 12, 15);
  }

  lemma WordAt16()
    ensures Scan(Text, 16) == Lexed(Ok(Id("a")), 17)
  {
    assert Text[16..17] == "a";
    WordToken(Text, 16, 17);
  }

  lemma WordAt18()
    ensures Scan(Text, 18) == Lexed(Ok(Id("b")), 19)
  {
    assert Text[18..19] == "b";
    WordToken(Text, 18, 19);
  }

  lemma WordAt20()
    ensures Scan(Text, 20) == Lexed(Ok(TypeName(IntegerType)), 27)
  {
    assert Text[20..27] == "INTEGER";
    WordToken(Text, 20, 27);
  }

  lemma WordAt29()
    ensures Scan(Text, 29) == Lexed(Ok(BeginKw), 34)
  {
    assert Text[29..34] == "BEGIN";
    WordToken(Text, 29, 34);
  }

  lemma WordAt35()
    ensures Scan(Text, 35) == Lexed(Ok(Id("a")), 36)
  {
    assert Text[35..36] == "a";
    WordToken(Text, 35, 36);
  }

  lemma NumberAt38()
    ensures Scan(Text, 38) == Lexed(Ok(IntegerConst(2)), 39)
  {
    assert Text[38..39] == "2";
    IntegerLiteral(Text, 38, 39);
  }

  lemma WordAt41()
    ensures Scan(Text, 41) == Lexed(Ok(Id("b")), 42)
  {
    assert Text[41..42] == "b";
    WordToken(Text, 41, 42);
  }

  lemma NumberAt44()
    ensures Scan(Text, 44) == Lexed(Ok(IntegerConst(10)), 46)
  {
    assert Text[44..46] == "10";
    IntegerLiteral(Text, 44, 46);
    assert DigitsValue("10") == DigitsValue("1") * 10 == 10;
  }

  lemma WordAt47()
    ensures Scan(Text, 47) == Lexed(Ok(IntegerDiv), 50)
  {
    assert Text[47..50] == "DIV";
    WordToken(Text, 47, 50);
  }

  lemma WordAt51()
    ensures Scan(Text, 51) == Lexed(Ok(Id("a")), 52)
  {
    assert Text[51..52] == "a";
    WordToken(Text, 51, 52);
  }

  lemma WordAt54()
    ensures Scan(Text, 54) == Lexed(Ok(EndKw), 57)
  {
    assert Text[54..57] == "END";
    WordToken(Text, 54, 57);
  }

  // Each call of `next_token` after the first: the whitespace before a token is skipped.

  lemma Step0()
    ensures Next(Cursor(Text, 7, ProgramKw)) == Ok(Cursor(Text, 10, Id("P1")))
  {
    WhitespaceSkipped(Text, 7);
    WordAt8();
  }

  lemma Step1()
    ensures Next(Cursor(Text, 10, Id("P1"))) == Ok(Cursor(Text, 11, Semi))
  {
  }

  lemma Step2()
    ensures Next(Cursor(Text, 11, Semi)) == Ok(Cursor(Text, 15, VarKw))
  {
    WhitespaceSkipped(Text, 11);
    WordAt12();
  }

  lemma Step3()
    ensures Next(Cursor(Text, 15, VarKw)) == Ok(Cursor(Text, 17, Id("a")))
  {
    WhitespaceSkipped(Text, 15);
    WordAt16();
  }

  lemma Step4()
    ensures Next(Cursor(Text, 17, Id("a"))) == Ok(Cursor(Text, 18, Comma))
  {
  }

  lemma Step5()
    ensures Next(Cursor(Text, 18, Comma)) == Ok(Cursor(Text, 19, Id("b")))
  {
    WordAt18();
  }

  lemma Step6()
    ensures Next(Cursor(Text, 19, Id("b"))) == Ok(Cursor(Text, 20, Colon))
  {
    BecomesOrColon(Text, 19);
  }

  lemma Step7()
    ensures Next(Cursor(Text, 20, Colon)) == Ok(Cursor(Text, 27, TypeName(IntegerType)))
  {
    WordAt20();
  }

  lemma Step8()
    ensures Next(Cursor(Text, 27, TypeName(IntegerType))) == Ok(Cursor(Text, 28, Semi))
  {
  }

  lemma Step9()
    ensures Next(Cursor(Text, 28, Semi)) == Ok(Cursor(Text, 34, BeginKw))
  {
    WhitespaceSkipped(Text, 28);
    WordAt29();
  }

  lemma Step10()
    ensures Next(Cursor(Text, 34, BeginKw)) == Ok(Cursor(Text, 36, Id("a")))
  {
    WhitespaceSkipped(Text, 34);
    WordAt35();
  }

  lemma Step11()
    ensures Next(Cursor(Text, 36, Id("a"))) == Ok(Cursor(Text, 38, Becomes))
  {
    BecomesOrColon(Text, 36);
  }

  lemma Step12()
    ensures Next(Cursor(Text, 38, Becomes)) == Ok(Cursor(Text, 39, IntegerConst(2)))
  {
    NumberAt38();
  }

  lemma Step13()
    ensures Next(Cursor(Text, 39, IntegerConst(2))) == Ok(Cursor(Text, 40, Semi))
  {
  }

  lemma Step14()
    ensures Next(Cursor(Text, 40, Semi)) == Ok(Cursor(Text, 42, Id("b")))
  {
    WhitespaceSkipped(Text, 40);
    WordAt41();
  }

  lemma Step15()
    ensures Next(Cursor(Text, 42, Id("b"))) == Ok(Cursor(Text, 44, Becomes))
  {
    BecomesOrColon(Text, 42);
  }

  lemma Step16()
    ensures Next(Cursor(Text, 44, Becomes)) == Ok(Cursor(Text, 46, IntegerConst(10)))
  {
    NumberAt44();
  }

  lemma Step17()
    ensures Next(Cursor(Text, 46, IntegerConst(10))) == Ok(Cursor(Text, 50, IntegerDiv))
  {
    WhitespaceSkipped(Text, 46);
    WordAt47();
  }

  lemma Step18()
    ensures Next(Cursor(Text, 50, IntegerDiv)) == Ok(Cursor(Text, 52, Id("a")))
  {
    WhitespaceSkipped(Text, 50);
    WordAt51();
  }

  lemma Step19()
    ensures Next(Cursor(Text, 52, Id("a"))) == Ok(Cursor(Text, 53, Semi))
  {
  }

  lemma Step20()
    ensures Next(Cursor(Text, 53, Semi)) == Ok(Cursor(Text, 57, EndKw))
  {
    WhitespaceSkipped(Text, 53);
    WordAt54();
  }

  lemma Step21()
    ensures Next(Cursor(Text, 57, EndKw)) == Ok(Cursor(Text, 58, Dot))
  {
  }

  lemma Step22()
    ensures Next(Cursor(Text, 58, Dot)) == Ok(Cursor(Text, 58, Eof))
  {
  }

  // ---------------------------------------------------------------------
  // The token stream
  // ---------------------------------------------------------------------

  /** The current token of `c` is `k`, and the next call of `next_token` leads to `c1`. */
  ghost predicate Reads(c: Cursor, k: Kind, c1: Cursor)
  {
    c.cur == k && Next(c) == Ok(c1)
  }

  /** The scanner reads `PROGRAM P1 ;` where the running example has it. */
  ghost predicate HeadingScanned(line: string)
  {
    && |line| > 0
    && Start(line) == Ok(Cursor(line, 7, ProgramKw))
    && Reads(Cursor(line, 7, ProgramKw), ProgramKw, Cursor(line, 10, Id("P1")))
    && Reads(Cursor(line, 10, Id("P1")), Id("P1"), Cursor(line, 11, Semi))
    && Reads(Cursor(line, 11, Semi), Semi, Cursor(line, 15, VarKw))
  }

  /** The scanner reads `VAR a , b : INTEGER ;` where the running example has it. */
  ghost predicate DeclarationsScanned(line: string)
  {
    && Reads(Cursor(line, 15, VarKw), VarKw, Cursor(line, 17, Id("a")))
    && Reads(Cursor(line, 17, Id("a")), Id("a"), Cursor(line, 18, Comma))
    && Reads(Cursor(line, 18, Comma), Comma, Cursor(line, 19, Id("b")))
    && Reads(Cursor(line, 19, Id("b")), Id("b"), Cursor(line, 20, Colon))
    && Reads(Cursor(line, 20, Colon), Colon, Cursor(line, 27, TypeName(IntegerType)))
    && Reads(Cursor(line, 27, TypeName(IntegerType)), TypeName(IntegerType), Cursor(line, 28, Semi))
    && Reads(Cursor(line, 28, Semi), Semi, Cursor(line, 34, BeginKw))
  }

  /** The scanner reads `BEGIN a := 2 ;` where the running example has it. */
  ghost predicate FirstStatementScanned(line: string)
  {
    && Reads(Cursor(line, 34, BeginKw), BeginKw, Cursor(line, 36, Id("a")))
    && Reads(Cursor(line, 36, Id("a")), Id("a"), Cursor(line, 38, Becomes))
    && Reads(Cursor(line, 38, Becomes), Becomes, Cursor(line, 39, IntegerConst(2)))
    && Reads(Cursor(line, 39, IntegerConst(2)), IntegerConst(2), Cursor(line, 40, Semi))
    && Reads(Cursor(line, 40, Semi), Semi, Cursor(line, 42, Id("b")))
  }

  /** The scanner reads `b := 10 DIV a ;` where the running example has it. */
  ghost predicate SecondStatementScanned(line: string)
  {
    && Reads(Cursor(line, 42, Id("b")), Id("b"), Cursor(line, 44, Becomes))
    && Reads(Cursor(line, 44, Becomes), Becomes, Cursor(line, 46, IntegerConst(10)))
    && Reads(Cursor(line, 46, IntegerConst(10)), IntegerConst(10), Cursor(line, 50, IntegerDiv))
    && Reads(Cursor(line, 50, IntegerDiv), IntegerDiv, Cursor(line, 52, Id("a")))
    && Reads(Cursor(line, 52, Id("a")), Id("a"), Cursor(line, 53, Semi))
    && Reads(Cursor(line, 53, Semi), Semi, Cursor(line, 57, EndKw))
  }

  /** The scanner reads `END .` and EOF where the running example has it. */
  ghost predicate EndScanned(line: string)
  {
    && Reads(Cursor(line, 57, EndKw), EndKw, Cursor(line, 58, Dot))
    && Reads(Cursor(line, 58, Dot), Dot, Cursor(line, 58, Eof))
  }

  /**
   * The scanner reads `line` as the tokens of the running example: `PROGRAM`
   * first, then each further call of `next_token` yields the next token, up
   * to EOF, ending where that token ends in `Text`.
   */
  ghost predicate ScansAsExample(line: string)
  {
    HeadingScanned(line) && DeclarationsScanned(line) && FirstStatementScanned(line)
    && SecondStatementScanned(line) && EndScanned(line)
  }

  /** `Text` is scanned as the running example's tokens. */
  lemma TextScans()
    ensures ScansAsExample(Text)
  {
    Starts();
    Step0(); Step1(); Step2(); Step3(); Step4(); Step5(); Step6(); Step7();
    Step8(); Step9(); Step10(); Step11(); Step12(); Step13(); Step14(); Step15();
    Step16(); Step17(); Step18(); Step19(); Step20(); Step21(); Step22();
  }

  // ---------------------------------------------------------------------
  // Parsing, one production at a time, over the cursors the scanner yields
  // ---------------------------------------------------------------------

  /** `a , b : INTEGER` read as tokens. */
  lemma VariablesScanned(c4: Cursor, c5: Cursor, c6: Cursor, c7: Cursor, c8: Cursor, c9: Cursor)
    requires Reads(c4, Id("a"), c5) && Reads(c5, Comma, c6) && Reads(c6, Id("b"), c7)
    requires Reads(c7, Colon, c8) && Reads(c8, TypeName(IntegerType), c9)
    ensures Walk(c4, [Id("a")] + CommaIds(["b"]) + [Colon, TypeName(IntegerType)]) == Some(c9)
  {
    assert [Id("a")] + CommaIds(["b"]) + [Colon, TypeName(IntegerType)]
      == [Id("a"), Comma, Id("b"), Colon, TypeName(IntegerType)];
    assert Walk(c7, [Colon, TypeName(IntegerType)]) == Some(c9);
    assert Walk(c5, [Comma, Id("b"), Colon, TypeName(IntegerType)]) == Some(c9);
  }

  /** `a , b : INTEGER` read as tokens declares `a`, then `b`, both INTEGER. */
  lemma VariablesParsed(c4: Cursor, c9: Cursor)
    requires Walk(c4, [Id("a")] + CommaIds(["b"]) + [Colon, TypeName(IntegerType)]) == Some(c9) && c9.cur == Semi
    ensures ParseVariableDeclaration(c4) == Parsed([VarDecl("a", IntegerType, Semi), VarDecl("b", IntegerType, Semi)], c9)
  {
    VariableDeclarationList(c4, "a", ["b"], IntegerType, c9);
    assert ["a"] + ["b"] == ["a", "b"];
    assert VarDecls(["a", "b"], IntegerType, Semi) == [VarDecl("a", IntegerType, Semi), VarDecl("b", IntegerType, Semi)];
  }

  /** `VAR`, one variable declaration, `;`, then `BEGIN`: the declarations are that one's. */
  lemma DeclarationsParsed(c3: Cursor, c4: Cursor, c9: Cursor, c10: Cursor, ds: seq<Ast>)
    requires Reads(c3, VarKw, c4) && c4.cur.Id? && ParseVariableDeclaration(c4) == Parsed(ds, c9)
    requires Reads(c9, Semi, c10) && c10.cur == BeginKw
    ensures ParseDeclarations(c3, []) == Parsed(ds, c10)
  {
    assert [] + ds == ds;
    assert ParseVarSection(c10, ds) == Parsed(ds, c10);
    assert ParseVarSection(c4, []) == Parsed(ds, c10);
  }

  /** `x := v` for an integer literal `v`, followed by `;`. */
  lemma LiteralAssignmentParsed(c: Cursor, c1: Cursor, c2: Cursor, c3: Cursor, x: string, v: int)
    requires Reads(c, Id(x), c1) && Reads(c1, Becomes, c2) && Reads(c2, IntegerConst(v), c3) && c3.cur == Semi
    ensures ParseStatement(c) == Parsed(Assign(x, Var(x, Id(x)), NumInteger(v)), c3)
  {
    assert ExprTokens(NumInteger(v)) == [IntegerConst(v)] by {
      assert FactorTokens(NumInteger(v)) == TermTokens(NumInteger(v)) == [IntegerConst(v)];
    }
    ExprRoundTrip(NumInteger(v), c2, c3);
  }

  /** `n DIV y` is written as its three tokens. */
  lemma DivisionTokens(n: int, y: string)
    ensures IsExpr(BinOp(NumInteger(n), Var(y, Id(y)), IntegerDiv))
    ensures ExprTokens(BinOp(NumInteger(n), Var(y, Id(y)), IntegerDiv)) == [IntegerConst(n), IntegerDiv, Id(y)]
  {
    var e := BinOp(NumInteger(n), Var(y, Id(y)), IntegerDiv);
    assert TermTokens(NumInteger(n)) == FactorTokens(NumInteger(n)) == [IntegerConst(n)];
    assert ExprTokens(e) == TermTokens(e) == [IntegerConst(n)] + [IntegerDiv] + [Id(y)];
  }

  /** `x := n DIV y` for an integer literal `n` and a variable `y`, followed by `;`. */
  lemma DivisionAssignmentParsed(c: Cursor, c1: Cursor, c2: Cursor, c3: Cursor, c4: Cursor, c5: Cursor,
                                 x: string, n: int, y: string)
    requires Reads(c, Id(x), c1) && Reads(c1, Becomes, c2) && Reads(c2, IntegerConst(n), c3)
    requires Reads(c3, IntegerDiv, c4) && Reads(c4, Id(y), c5) && c5.cur == Semi
    ensures ParseStatement(c) == Parsed(Assign(x, Var(x, Id(x)), BinOp(NumInteger(n), Var(y, Id(y)), IntegerDiv)), c5)
  {
    var e := BinOp(NumInteger(n), Var(y, Id(y)), IntegerDiv);
    DivisionTokens(n, y);
    assert Walk(c3, [IntegerDiv, Id(y)]) == Some(c5);
    ExprRoundTrip(e, c2, c5);
  }

  /** `s1 ; s2 ; END`: the two statements and the empty one before `END`. */
  lemma StatementListParsed(c: Cursor, c1: Cursor, c2: Cursor, c3: Cursor, c4: Cursor, s1: Ast, s2: Ast)
    requires ParseStatement(c) == Parsed(s1, c1) && Reads(c1, Semi, c2)
    requires ParseStatement(c2) == Parsed(s2, c3) && Reads(c3, Semi, c4) && c4.cur == EndKw
    ensures ParseStatementList(c) == Parsed([s1, s2, NoOp], c4)
  {
    assert ParseStatement(c4) == Parsed(NoOp, c4);
    assert [s1, s2] + [NoOp] == [s1, s2, NoOp];
    assert ParseStatementListTail(c4, [s1, s2, NoOp]) == Parsed([s1, s2, NoOp], c4);
    assert ParseStatementListTail(c3, [s1, s2]) == Parsed([s1, s2, NoOp], c4);
    assert [s1] + [s2] == [s1, s2];
  }

  /** `PROGRAM P1 ;` declarations `BEGIN` statements `END .` EOF: the program of that block. */
  lemma ProgramParsed(line: string, c0: Cursor, c1: Cursor, c2: Cursor, c3: Cursor, c10: Cursor, c11: Cursor,
                      c21: Cursor, c22: Cursor, c23: Cursor, ds: seq<Ast>, cs: seq<Ast>)
    requires |line| > 0 && Start(line) == Ok(c0) && Reads(c0, ProgramKw, c1) && Reads(c1, Id("P1"), c2) && Reads(c2, Semi, c3)
    requires ParseDeclarations(c3, []) == Parsed(ds, c10) && Reads(c10, BeginKw, c11)
    requires ParseStatementList(c11) == Parsed(cs, c21) && Reads(c21, EndKw, c22)
    requires Reads(c22, Dot, c23) && c23.cur == Eof
    ensures ParseSource(line) == Parsed(Program("P1", Block(ds, Compound(cs))), c23)
  {
    assert ParseBlock(c3) == Parsed(Block(ds, Compound(cs)), c22);
  }

  // The same productions on the cursors of a text scanned as the running example.

  lemma ExampleDeclarationsParsed(line: string)
    requires DeclarationsScanned(line)
    ensures ParseDeclarations(Cursor(line, 15, VarKw), [])
      == Parsed([VarDecl("a", IntegerType, Semi), VarDecl("b", IntegerType, Semi)], Cursor(line, 34, BeginKw))
  {
    VariablesScanned(Cursor(line, 17, Id("a")), Cursor(line, 18, Comma), Cursor(line, 19, Id("b")),
      Cursor(line, 20, Colon), Cursor(line, 27, TypeName(IntegerType)), Cursor(line, 28, Semi));
    VariablesParsed(Cursor(line, 17, Id("a")), Cursor(line, 28, Semi));
    DeclarationsParsed(Cursor(line, 15, VarKw), Cursor(line, 17, Id("a")), Cursor(line, 28, Semi),
      Cursor(line, 34, BeginKw), [VarDecl("a", IntegerType, Semi), VarDecl("b", IntegerType, Semi)]);
  }

  lemma ExampleStatementsParsed(line: string)
    requires FirstStatementScanned(line) && SecondStatementScanned(line) && EndScanned(line)
    ensures ParseStatementList(Cursor(line, 36, Id("a")))
      == Parsed(AnalyzerProperties.Example().block.compound.children, Cursor(line, 57, EndKw))
  {
    LiteralAssignmentParsed(Cursor(line, 36, Id("a")), Cursor(line, 38, Becomes), Cursor(line, 39, IntegerConst(2)),
      Cursor(line, 40, Semi), "a", 2);
    DivisionAssignmentParsed(Cursor(line, 42, Id("b")), Cursor(line, 44, Becomes), Cursor(line, 46, IntegerConst(10)),
      Cursor(line, 50, IntegerDiv), Cursor(line, 52, Id("a")), Cursor(line, 53, Semi), "b", 10, "a");
    StatementListParsed(Cursor(line, 36, Id("a")), Cursor(line, 40, Semi), Cursor(line, 42, Id("b")),
      Cursor(line, 53, Semi), Cursor(line, 57, EndKw),
      Assign("a", Var("a", Id("a")), NumInteger(2)),
      Assign("b", Var("b", Id("b")), BinOp(NumInteger(10), Var("a", Id("a")), IntegerDiv)));
  }

  /** Any text scanned as the running example's tokens is parsed as its tree, up to EOF. */
  lemma ExampleTokensParse(line: string)
    requires ScansAsExample(line)
    ensures ParseSource(line) == Parsed(AnalyzerProperties.Example(), Cursor(line, 58, Eof))
  {
    var p := AnalyzerProperties.Example();
    ExampleDeclarationsParsed(line);
    ExampleStatementsParsed(line);
    ProgramParsed(line, Cursor(line, 7, ProgramKw), Cursor(line, 10, Id("P1")), Cursor(line, 11, Semi),
      Cursor(line, 15, VarKw), Cursor(line, 34, BeginKw), Cursor(line, 36, Id("a")), Cursor(line, 57, EndKw),
      Cursor(line, 58, Dot), Cursor(line, 58, Eof), p.block.declarations, p.block.compound.children);
  }

  /** The front end reads `Text` as the running example's tree and reaches EOF. */
  lemma TextParses()
    ensures ParseSource(Text) == Parsed(AnalyzerProperties.Example(), Cursor(Text, 58, Eof))
  {
    TextScans();
    ExampleTokensParse(Text);
  }

  /**
   * The whole pipeline on the text: it parses, the tree passes the semantic
   * analysis from the root scope, and interpreting it leaves `a = 2` and
   * `b = 5` in global memory.
   */
  lemma TextRuns()
    ensures ParseSource(Text).Parsed?
    ensures Analyze(ParseSource(Text).value, [Root]) == Analysis([Root], Pass)
    ensures Runnable(ParseSource(Text).value)
    ensures Visit(ParseSource(Text).value, map[]) == Step(map["a" := Integer(2), "b" := Integer(5)], Ok(None))
  {
    TextParses();
    AnalyzerProperties.ExamplePasses();
    InterpreterProperties.ExampleMemory();
  }
}
