# A Pascal-subset interpreter pipeline, modelled and verified in Dafny

This project models the last increment of a small Pascal-subset interpreter
written in Rust. The pipeline has these stages:

- **Lexer** (part11 `lexer.rs`). It scans one line of characters and yields
  one token per call. It skips whitespace and `{ ... }` comments.
- **Recursive-descent parser** (part15 `parser.rs`). It builds the syntax
  tree. Its `eat` compares token constructors only, the parse stops at the
  first error, and there must be nothing after the final `.`.
- **Scoped symbol table** (part16 `symbols.rs`). Each scope has a name, a
  level, its own name-to-symbol map, and an owned link to the scope that
  encloses it.
- **Semantic analyzer** (part15 `semantic.rs`). It walks the tree once and
  opens and closes scopes as it goes. It reports a duplicate declaration in
  one scope, and a name that is not declared along the chain of scopes.
- **Tree-walking interpreter** (part15 `interpreter.rs`). It evaluates into
  one flat global memory, with integer and real values. It then reports the
  memory sorted by name.

Each stage is written twice:

- a pure specification function: `Lexing.Scan`, `Grammar.Parse…`,
  `Symbols.ChainLookup`, `Semantic.Analyze` and `Interpreting.Visit`;
- a class that does the work imperatively, as the Rust code does:
  `Lexing.Lexer`, `Parsing.Parser`, `Symbols.ScopedSymbolTable`,
  `Semantic.SemanticAnalyzer` and `Interpreting.Interpreter`.

Every method of a class is proved to compute its specification function
from the state it starts in. The properties the source promises are proved
as lemmas about the specification functions, in the `*Properties` modules.

Files:

| file | contents |
|---|---|
| `wrappers.dfy` | `Option`, `Result`, `Outcome` |
| `tokens.dfy` | token kinds, the constructor tag `eat` compares, the error variants |
| `ast.dfy` | the syntax tree and the shapes of tree the parser builds |
| `lexer.dfy`, `lexer_properties.dfy` | the scanner and what one scan step yields |
| `grammar.dfy`, `parser.dfy`, `parser_properties.dfy` | the parse functions, the parser object, and the round trips and precedence facts |
| `symbols.dfy`, `symbols_properties.dfy` | the scope chain and chained lookup |
| `analyzer.dfy`, `analyzer_properties.dfy` | the semantic pass |
| `rows.dfy` | the string order of the memory report |
| `interpreter.dfy`, `interpreter_properties.dfy` | evaluation and the memory report |
| `worked_example.dfy` | the running example from its text: scanned, parsed, analyzed and run |

## Model

| member | source | states |
|---|---|---|
| Tokens.TagOfEof | simple/rust/part15/src/parser.rs:430-431 | only EOF has EOF's constructor tag, so the discriminant comparison in `parse` accepts exactly EOF |
| Tokens.Tag | simple/rust/part15/src/parser.rs:92 | the constructor number `mem::discriminant` compares, payload ignored: identifiers alone have the identifier's number and EOF alone EOF's |
| Tokens.TagOfId | simple/rust/part15/src/parser.rs:92 | only identifiers have an identifier's tag, whatever their text |
| Lexing.WhitespaceEnd | simple/rust/part11/src/lexer.rs:55-62 | the whitespace skip stops at the end of the maximal run of ASCII whitespace |
| Lexing.CommentEnd | simple/rust/part11/src/lexer.rs:64-72 | the comment skip stops just after the first `}`; with no `}` left, it stops at the end of the input |
| Lexing.IdEnd | simple/rust/part11/src/lexer.rs:96-104 | the identifier scan takes the maximal alphanumeric run |
| Lexing.NumberEnd | simple/rust/part11/src/lexer.rs:74-88 | the number scan takes only digits and dots |
| Lexing.NumberEndDots | simple/rust/part11/src/lexer.rs:77-88 | a number holds at most one `.`; the scan stops at the end, at a character that is neither digit nor dot, or at a second dot |
| Lexing.NumberStep | simple/rust/part11/src/lexer.rs:77-88 | one character taken by the number loop keeps its stopping point and tracks whether a `.` was taken |
| Lexing.NumberStops | simple/rust/part11/src/lexer.rs:77-88 | where the number loop stops, every character taken is a digit or a dot |
| Lexing.Scan | simple/rust/part11/src/lexer.rs:113-155 | one `next_token`: a token other than EOF consumes at least one character; EOF only at the end, and at the end always EOF without moving |
| Lexing.ReservedKeywords | simple/rust/part11/src/lexer.rs:21-29 | the keyword table: the seven part11 entries, each spelling mapped to its kind, plus PROCEDURE (its content is stated by `LexerProperties.ReservedWords`) |
| Lexing.Word | simple/rust/part11/src/lexer.rs:106-110 | a scanned word is an identifier exactly when it is not a table key, and then carries its own text; a key gives the table's kind |
| Lexing.NumberKind | simple/rust/part11/src/lexer.rs:89-93 | a scanned number is a REAL_CONST exactly when it holds a `.`, kept as its text; otherwise an INTEGER_CONST of its decimal value |
| Lexing.DigitsValue | simple/rust/part11/src/lexer.rs:92 | the decimal reading of a digit string: the value modulo 10 is its last digit |
| Lexing.SingleChar | simple/rust/part11/src/lexer.rs:139-151 | exactly the ten characters `;*-,+/:().` are one-character tokens, and none of them is an identifier, a literal or EOF |
| Lexing.Lexer.constructor | simple/rust/part11/src/lexer.rs:14-35 | a new lexer stands at position 0 on the first character; the input must not be empty |
| Lexing.Lexer.Advance | simple/rust/part11/src/lexer.rs:37-44 | the position moves by one and the current character follows it, or is none past the end |
| Lexing.Lexer.Peek | simple/rust/part11/src/lexer.rs:46-53 | the character after the current one, or none when there is none |
| Lexing.Lexer.SkipWhitespace | simple/rust/part11/src/lexer.rs:55-62 | the loop stops exactly where `WhitespaceEnd` says |
| Lexing.Lexer.SkipComment | simple/rust/part11/src/lexer.rs:64-72 | the loop stops exactly where `CommentEnd` says |
| Lexing.Lexer.Number | simple/rust/part11/src/lexer.rs:74-94 | the loop stops where `NumberEnd` says; the kind is a real literal when the text holds a `.`, else an integer with the text's decimal value |
| Lexing.Lexer.Id | simple/rust/part11/src/lexer.rs:96-111 | the loop stops where `IdEnd` says; the word is its reserved kind or an identifier |
| Lexing.Lexer.NextToken | simple/rust/part11/src/lexer.rs:113-156 | one call yields the token and the position that `Scan` gives |
| LexerProperties.WordToken | simple/rust/part11/src/lexer.rs:96-111 | a maximal alphanumeric run that starts with a letter is its reserved kind when it is exactly a table key, else `ID(text)` |
| LexerProperties.ReservedWords | simple/rust/part11/src/lexer.rs:21-29 | the reserved spellings are exactly the table's keys plus PROCEDURE; matching is case-sensitive; `DIV` is integer division |
| LexerProperties.NumberEndOverDigits | simple/rust/part11/src/lexer.rs:77-88 | the number loop does not stop inside a run of digits |
| LexerProperties.IntegerLiteral | simple/rust/part11/src/lexer.rs:89-93 | a digit run not followed by `.` is one INTEGER_CONST with the run's decimal value |
| LexerProperties.RealLiteral | simple/rust/part11/src/lexer.rs:74-94 | digits, one `.`, digits are one REAL_CONST holding that text; a second `.` ends it and is not consumed |
| LexerProperties.BecomesOrColon | simple/rust/part11/src/lexer.rs:133-146 | `:` directly followed by `=` is one ASSIGN that consumes both; a lone `:` is COLON |
| LexerProperties.SlashIsFloatDiv | simple/rust/part11/src/lexer.rs:145 | `/` is FLOAT_DIV |
| LexerProperties.WhitespaceSkipped | simple/rust/part11/src/lexer.rs:120-123 | whitespace yields no token: scanning from it is scanning from the next character |
| LexerProperties.CommentEndOverBody | simple/rust/part11/src/lexer.rs:64-72 | the comment skip does not stop before the first `}` |
| LexerProperties.CommentSkipped | simple/rust/part11/src/lexer.rs:115-119 | a comment runs to the first `}` and yields no token; a `{` inside it is ordinary text, so comments do not nest |
| LexerProperties.UnclosedComment | simple/rust/part11/src/lexer.rs:64-72 | an unclosed comment runs to the end of the input, and the scan then yields EOF |
| LexerProperties.InvalidCharacterReported | simple/rust/part11/src/lexer.rs:150 | any other character is an invalid-character error naming that character |
| LexerProperties.EofRepeats | simple/rust/part11/src/lexer.rs:155 | once EOF is produced, every further call yields EOF again without moving |
| Grammar.Next | simple/rust/part15/src/parser.rs:93 | one lexer step never raises the parser's measure, and lowers it unless the current token is EOF |
| Grammar.Eat | simple/rust/part15/src/parser.rs:87-98 | `eat(k)` moves one token exactly when the current token has `k`'s tag, whatever the payloads; otherwise it reports the current token |
| Grammar.ParseVariable | simple/rust/part15/src/parser.rs:313-325 | `variable` accepts only an identifier and keeps its token; anything else is reported |
| Grammar.ParseFactor | simple/rust/part15/src/parser.rs:371-403 | a parsed factor is an expression tree and consumes input |
| Grammar.ParseTermTail | simple/rust/part15/src/parser.rs:352-367 | the `term` loop stops at a token that is not `*`, `DIV` or `/` |
| Grammar.ParseTerm | simple/rust/part15/src/parser.rs:348-369 | a parsed term is an expression tree, and the token after it is not a multiplicative operator |
| Grammar.ParseExprTail | simple/rust/part15/src/parser.rs:331-344 | the `expr` loop stops at a token that is not `+` or `-` |
| Grammar.ParseExpr | simple/rust/part15/src/parser.rs:327-346 | a parsed expression is an expression tree, followed by no operator token |
| Grammar.ParseAssignmentStatement | simple/rust/part15/src/parser.rs:301-311 | an assignment node for the given target name |
| Grammar.ParseCompoundStatement | simple/rust/part15/src/parser.rs:267-273 | a parsed compound statement holds only statements |
| Grammar.ParseStatement | simple/rust/part15/src/parser.rs:289-299 | a parsed statement is a compound, an assignment or NoOp |
| Grammar.ParseStatementListTail | simple/rust/part15/src/parser.rs:281-284 | the `;` loop keeps the statements read so far and stops at a token that is not `;` |
| Grammar.ParseStatementList | simple/rust/part15/src/parser.rs:275-287 | at least one statement, and the token after the list is not `;` |
| Grammar.ParseTypeSpec | simple/rust/part15/src/parser.rs:258-265 | only a type name is accepted, and the result is that type |
| Grammar.ParseVarIdsTail | simple/rust/part15/src/parser.rs:233-244 | the comma loop keeps the names read so far and stops at a token that is not `,` |
| Grammar.IdName | simple/rust/part15/src/parser.rs:237-239 | the `if let ID(id)` push: an identifier contributes its one name, any other token none |
| Grammar.VarDecls | simple/rust/part15/src/parser.rs:248-255 | one VarDecl per name, in order, all of the same type and token |
| Grammar.ParseVariableDeclaration | simple/rust/part15/src/parser.rs:225-256 | every node built is a VarDecl holding the token that follows the type name |
| Grammar.ParseVarSection | simple/rust/part15/src/parser.rs:134-140 | after `VAR`, declarations are read while the current token is an identifier |
| Grammar.ParseParamIds | simple/rust/part15/src/parser.rs:179-193 | the identifier loop of `formal_parameters` reads at least one identifier and stops at a token that is not `,` |
| Grammar.Params | simple/rust/part15/src/parser.rs:196-202 | one parameter per name, in order, all of the same type |
| Grammar.ParseFormalParameters | simple/rust/part15/src/parser.rs:176-204 | a parameter group starts with an identifier and has at least one parameter |
| Grammar.ParseParamGroups | simple/rust/part15/src/parser.rs:214-221 | the loop of `formal_parameter_list` ends only at a token that is not `;` |
| Grammar.ParseFormalParameterList | simple/rust/part15/src/parser.rs:206-223 | without an identifier first, the list is empty and nothing is consumed |
| Grammar.ParseProcedureParams | simple/rust/part15/src/parser.rs:151-159 | without `(`, a procedure has no parameters and nothing is consumed |
| Grammar.ParseProcedureDeclaration | simple/rust/part15/src/parser.rs:143-167 | the PROCEDURE arm builds one procedure declaration |
| Grammar.ParseProcedureHeading | simple/rust/part15/src/parser.rs:144-161 | the heading of a procedure consumes input |
| Grammar.ParseDeclarations | simple/rust/part15/src/parser.rs:127-174 | VAR sections and procedures, in any number and order, until the current token is neither VAR nor PROCEDURE; every node is a declaration |
| Grammar.VarDeclarationsAdded | simple/rust/part15/src/parser.rs:137-138 | appending variable declarations keeps a declaration list |
| Grammar.DeclarationAdded | simple/rust/part15/src/parser.rs:162-166 | appending a procedure declaration keeps a declaration list |
| Grammar.ParseBlock | simple/rust/part15/src/parser.rs:116-125 | a parsed block is declarations followed by a compound statement |
| Grammar.ParseProgram | simple/rust/part15/src/parser.rs:99-114 | a parsed program has the shape the later stages rely on |
| Grammar.Parse | simple/rust/part15/src/parser.rs:405-437 | a successful parse ends at EOF |
| Grammar.Start | simple/rust/part15/src/parser.rs:74-85 | the first token is read from the given text |
| Grammar.ParseSource | simple/rust/part15/src/parser.rs:74-85 | lexing the first token and parsing gives a program that ends at EOF |
| Parsing.Parser.constructor | simple/rust/part15/src/parser.rs:75-82 | a parser holding the lexer and a current token |
| Parsing.Parser.New | simple/rust/part15/src/parser.rs:74-85 | `Parser::new` reports the first lexical error, or holds the first token |
| Parsing.Parser.Eat | simple/rust/part15/src/parser.rs:87-98 | the parser object does what `Grammar.Eat` says; on a mismatch nothing moves |
| Parsing.Parser.Program | simple/rust/part15/src/parser.rs:99-114 | computes `Grammar.ParseProgram` from where it stands |
| Parsing.Parser.Block | simple/rust/part15/src/parser.rs:116-125 | computes `Grammar.ParseBlock` |
| Parsing.Parser.Declarations | simple/rust/part15/src/parser.rs:127-174 | the loop computes `Grammar.ParseDeclarations` |
| Parsing.Parser.ProcedureDeclaration | simple/rust/part15/src/parser.rs:143-167 | computes `Grammar.ParseProcedureDeclaration` |
| Parsing.Parser.ProcedureHeading | simple/rust/part15/src/parser.rs:144-161 | computes `Grammar.ParseProcedureHeading` |
| Parsing.Parser.ProcedureParams | simple/rust/part15/src/parser.rs:151-159 | computes `Grammar.ParseProcedureParams` |
| Parsing.Parser.FormalParameters | simple/rust/part15/src/parser.rs:176-204 | the loop computes `Grammar.ParseFormalParameters` |
| Parsing.Parser.FormalParameterList | simple/rust/part15/src/parser.rs:206-223 | the loop computes `Grammar.ParseFormalParameterList` |
| Parsing.Parser.VariableDeclaration | simple/rust/part15/src/parser.rs:225-256 | the loop computes `Grammar.ParseVariableDeclaration` |
| Parsing.Parser.TypeSpec | simple/rust/part15/src/parser.rs:258-265 | computes `Grammar.ParseTypeSpec` |
| Parsing.Parser.CompoundStatement | simple/rust/part15/src/parser.rs:267-273 | computes `Grammar.ParseCompoundStatement` |
| Parsing.Parser.StatementList | simple/rust/part15/src/parser.rs:275-287 | the loop computes `Grammar.ParseStatementList` |
| Parsing.Parser.Statement | simple/rust/part15/src/parser.rs:289-299 | computes `Grammar.ParseStatement` |
| Parsing.Parser.AssignmentStatement | simple/rust/part15/src/parser.rs:301-311 | computes `Grammar.ParseAssignmentStatement` |
| Parsing.Parser.Variable | simple/rust/part15/src/parser.rs:313-325 | computes `Grammar.ParseVariable` |
| Parsing.Parser.Expr | simple/rust/part15/src/parser.rs:327-346 | the loop computes `Grammar.ParseExpr` |
| Parsing.Parser.Term | simple/rust/part15/src/parser.rs:348-369 | the loop computes `Grammar.ParseTerm` |
| Parsing.Parser.Factor | simple/rust/part15/src/parser.rs:371-403 | computes `Grammar.ParseFactor` |
| Parsing.Parser.Parse | simple/rust/part15/src/parser.rs:405-437 | computes `Grammar.Parse`: a program, then EOF |
| ParserProperties.Walk | simple/rust/part15/src/parser.rs:93 | reading no tokens leaves the cursor where it is |
| ParserProperties.WalkAppend | simple/rust/part15/src/parser.rs:93 | reading two token sequences in turn is reading their concatenation |
| ParserProperties.WalkOne | simple/rust/part15/src/parser.rs:93 | reading a first token means the current token is that one and the lexer step succeeds |
| ParserProperties.EatIgnoresPayload | simple/rust/part15/src/parser.rs:92 | `eat` looks only at the constructor: two kinds with the same tag are eaten alike |
| ParserProperties.EatAccepts | simple/rust/part15/src/parser.rs:87-98 | `eat` succeeds exactly when the tags agree and the next lexer step succeeds |
| ParserProperties.TrailingTokenRejected | simple/rust/part15/src/parser.rs:429-436 | `parse` succeeds exactly when the program is followed by EOF; any other token is reported |
| ParserProperties.FactorRoundTrip | simple/rust/part15/src/parser.rs:371-403 | `factor` reads back any expression tree from its factor-level tokens |
| ParserProperties.ParenRoundTrip | simple/rust/part15/src/parser.rs:394-399 | a parenthesised expression reads back as the tree inside the parentheses |
| ParserProperties.TermPrefix | simple/rust/part15/src/parser.rs:348-369 | `term` reads a tree's term-level tokens and continues its loop with that tree as the left operand |
| ParserProperties.ExprPrefix | simple/rust/part15/src/parser.rs:327-346 | `expr` reads a tree's expression tokens and continues its loop with that tree as the left operand |
| ParserProperties.ExprRoundTrip | simple/rust/part15/src/parser.rs:327-369 | on the tokens of any expression tree followed by a non-operator, `expr` rebuilds exactly that tree: left associativity, and `*` `DIV` `/` binding tighter than `+` `-` |
| ParserProperties.SubtractionNestsLeft | simple/rust/part15/src/parser.rs:327-346 | `x - y - z` is `(x - y) - z` |
| ParserProperties.DifferenceTokens | simple/rust/part15/src/parser.rs:327-369 | the tree `(x - y) - z` is an expression the parser builds, written `x - y - z` |
| ParserProperties.MultiplicationBindsTighter | simple/rust/part15/src/parser.rs:327-369 | `x + y * z` is `x + (y * z)` |
| ParserProperties.SumOfProductTokens | simple/rust/part15/src/parser.rs:327-369 | the tree `x + (y * z)` is an expression the parser builds, written `x + y * z` without parentheses |
| ParserProperties.AtomTokens | simple/rust/part15/src/parser.rs:400 | a variable is written as its one identifier token |
| ParserProperties.UnarySignsNest | simple/rust/part15/src/parser.rs:379-385 | `- - 5` is a minus applied to a minus applied to 5 |
| ParserProperties.FactorRejects | simple/rust/part15/src/parser.rs:401 | a factor cannot start with any other token: it is reported as unexpected |
| ParserProperties.MissingOperandAfterBecomes | simple/rust/part15/src/parser.rs:301-305 | with no operand after `:=`, the statement fails naming the token that follows `:=` |
| ParserProperties.EmptyStatement | simple/rust/part15/src/parser.rs:289-299 | a statement is NoOp and consumes nothing exactly when it starts with neither BEGIN nor an identifier |
| ParserProperties.CommaIds | simple/rust/part15/src/parser.rs:233-244 | the tokens `, n1 , n2 ...` for a list of names |
| ParserProperties.VarIdsStep | simple/rust/part15/src/parser.rs:234-241 | one turn of the comma loop eats the comma and the next token, adding its name when it is an identifier |
| ParserProperties.VarIdsRead | simple/rust/part15/src/parser.rs:233-244 | the comma loop collects the names after the commas, in order |
| ParserProperties.VariableDeclarationParts | simple/rust/part15/src/parser.rs:225-256 | a variable declaration is its first name, the comma loop, then `: T` |
| ParserProperties.VariableDeclarationList | simple/rust/part15/src/parser.rs:225-256 | `a, b, c : T` gives one VarDecl per name, in source order, all of type T |
| ParserProperties.NonIdentifierEaten | simple/rust/part15/src/parser.rs:236-240 | after a comma any token is eaten, and one that is not an identifier adds no name |
| ParserProperties.NonIdentifierAfterCommaSkipped | simple/rust/part15/src/parser.rs:228-240 | `a , 5 : T` is accepted and declares only `a` |
| ParserProperties.VarDeclsOne | simple/rust/part15/src/parser.rs:248-255 | one name gives one variable declaration |
| ParserProperties.EmptyVarSection | simple/rust/part15/src/parser.rs:134-140 | a VAR with no declaration after it is accepted and adds nothing, so sections can repeat and interleave |
| ParserProperties.ParamIdsStep | simple/rust/part15/src/parser.rs:179-192 | one name of the parameter loop followed by a comma |
| ParserProperties.ParamIdsRead | simple/rust/part15/src/parser.rs:179-193 | the parameter loop collects every name, in order |
| ParserProperties.FormalParametersParts | simple/rust/part15/src/parser.rs:176-204 | a parameter group is the identifier loop, then `: T` |
| ParserProperties.ParameterGroup | simple/rust/part15/src/parser.rs:176-204 | `a, b : T` gives one parameter per name, in order, all of type T |
| ParserProperties.SingleParameterGroup | simple/rust/part15/src/parser.rs:206-223 | one group not followed by `;` is the whole parameter list |
| ParserProperties.SecondParameterGroupRejected | simple/rust/part15/src/parser.rs:214-221 | the `;` after a group is never eaten, so a second group fails with UNEXPECTED_TOKEN at that `;` |
| Symbols.Symbol.Name | simple/rust/part16/src/symbols.rs:12-19 | a symbol's key is its own name |
| Symbols.InitialTable | simple/rust/part16/src/symbols.rs:97-111 | a level-1 scope starts with exactly BuiltIn INTEGER and BuiltIn REAL; any other level starts empty |
| Symbols.Builtins | simple/rust/part16/src/symbols.rs:104-108 | the builtin INTEGER and REAL type symbols, each under its own name (stated by `Symbols.InitialTable`) |
| Symbols.Inserted | simple/rust/part16/src/symbols.rs:126-129 | `insert` keys the symbol by its name and overwrites an entry of that name; the other entries are unchanged |
| Symbols.ChainLookup | simple/rust/part16/src/symbols.rs:131-143 | `lookup` returns the own-table entry when there is one |
| Symbols.CanLookup | simple/rust/part16/src/symbols.rs:136-139 | when `lookup` does not panic: a name in the own table always can be looked up, and a miss needs an enclosing scope for the `unwrap` |
| SymbolProperties.ScopesCanLookup | simple/rust/part16/src/symbols.rs:138-139 | on the chains the analyzer keeps, `lookup` never unwraps a missing enclosing scope |
| SymbolProperties.ScopesByLevel | simple/rust/part15/src/semantic.rs:14 | the chain ends in the one root scope of level 0, and every other scope has a level above 0 |
| SymbolProperties.ScopesTail | simple/rust/part15/src/semantic.rs:49 | dropping the innermost scope leaves a chain of the same shape |
| SymbolProperties.LookupFindsInnermost | simple/rust/part16/src/symbols.rs:131-143 | the first scope outward that declares the name, if it is not the root, gives the entry |
| SymbolProperties.LookupMissing | simple/rust/part16/src/symbols.rs:136-142 | lookup finds nothing exactly when no scope but the root declares the name: the level-0 root is never searched |
| SymbolProperties.InnerNameInvisibleOutside | simple/rust/part16/src/symbols.rs:136-142 | a name declared only in an inner scope is found there but not from the scope that encloses it |
| SymbolProperties.InsertThenLookup | simple/rust/part16/src/symbols.rs:126-143 | after `insert(s)` in the innermost scope, lookup of its name finds `s` |
| SymbolProperties.EnclosingScopeRoundTrip | simple/rust/part16/src/symbols.rs:113-120 | `set_enclosing_scope(p)` then `enclosing_scope()` gives back `p`, unchanged, and leaves the link empty |
| Symbols.ScopedSymbolTable.Frames | simple/rust/part16/src/symbols.rs:42-48 | the chain of scopes starts with this scope's name, level and table |
| Symbols.ScopedSymbolTable.constructor | simple/rust/part16/src/symbols.rs:97-111 | a new scope has no enclosing scope and starts with `InitialTable(level)` |
| Symbols.ScopedSymbolTable.EnclosingScope | simple/rust/part16/src/symbols.rs:113-116 | the enclosing scope is taken out, holding the rest of the chain, and the link becomes empty |
| Symbols.ScopedSymbolTable.SetEnclosingScope | simple/rust/part16/src/symbols.rs:118-120 | the given scope becomes the enclosing one, and the chain is this scope followed by its chain |
| Symbols.ScopedSymbolTable.ScopeLevel | simple/rust/part16/src/symbols.rs:122-124 | the level of this scope |
| Symbols.ScopedSymbolTable.Insert | simple/rust/part16/src/symbols.rs:126-129 | only this scope's own table changes, as `Inserted` says; the enclosing scopes do not |
| Symbols.ScopedSymbolTable.Lookup | simple/rust/part16/src/symbols.rs:131-143 | the recursion up the chain of objects finds what `ChainLookup` says |
| Symbols.ScopedSymbolTable.LookupCurrentOnly | simple/rust/part16/src/symbols.rs:145-155 | an entry is returned exactly when the name is in this scope's own table, and it is that entry |
| Semantic.NewFrame | simple/rust/part16/src/symbols.rs:97-111 | a new scope has the given name and level and the initial table |
| Semantic.Root | simple/rust/part15/src/semantic.rs:12-17 | the scope the analyzer starts in: name "None", level 0, an empty table (stated by `Semantic.SemanticAnalyzer.constructor`) |
| Semantic.ScopesHead | simple/rust/part16/src/symbols.rs:126-129 | changing the innermost scope's table keeps the shape of the chain |
| Semantic.ScopesPush | simple/rust/part15/src/semantic.rs:38-42 | opening a scope of level above 0 keeps the shape of the chain |
| Semantic.AddParams | simple/rust/part15/src/semantic.rs:78-86 | the parameters' names are added to the scope, and nothing else is |
| Semantic.Analyze | simple/rust/part15/src/semantic.rs:23-137 | any visit keeps the chain's shape; a successful one leaves the current scope with the same name and level, and the enclosing scopes as they were |
| Semantic.AnalyzeBlock | simple/rust/part15/src/semantic.rs:25-33 | the Block arm keeps the stack discipline |
| Semantic.AnalyzeOperands | simple/rust/part15/src/semantic.rs:102-113 | the Assign and BinOp arms keep the stack discipline |
| Semantic.AnalyzeVarDecl | simple/rust/part15/src/semantic.rs:114-128 | the VarDecl arm keeps the stack discipline |
| Semantic.AnalyzeVar | simple/rust/part15/src/semantic.rs:129-134 | a reference never changes the chain |
| Semantic.AnalyzeProgram | simple/rust/part15/src/semantic.rs:34-53 | a successful program visit gives back exactly the chain it started from |
| Semantic.BodyChain | simple/rust/part15/src/semantic.rs:64-86 | the body's chain: the procedure's symbol inserted in the current scope, and a new scope one level deeper, named after the procedure, holding its parameters |
| Semantic.AnalyzeProcedure | simple/rust/part15/src/semantic.rs:59-97 | on success the procedure's scope is closed again, and the current scope holds the procedure's symbol |
| Semantic.AnalyzeAll | simple/rust/part15/src/semantic.rs:29-31 | the loop over nodes keeps the stack discipline |
| Semantic.SemanticAnalyzer.constructor | simple/rust/part15/src/semantic.rs:12-17 | the analyzer starts in the root scope "None" at level 0 |
| Semantic.SemanticAnalyzer.VisitNode | simple/rust/part15/src/semantic.rs:23-137 | `visit_node` on the chain of scope objects computes `Analyze` |
| Semantic.SemanticAnalyzer.VisitBlock | simple/rust/part15/src/semantic.rs:25-33 | computes `AnalyzeBlock` |
| Semantic.SemanticAnalyzer.VisitOperands | simple/rust/part15/src/semantic.rs:102-113 | computes `AnalyzeOperands` |
| Semantic.SemanticAnalyzer.VisitVarDecl | simple/rust/part15/src/semantic.rs:114-128 | computes `AnalyzeVarDecl`, changing only the current scope's table |
| Semantic.SemanticAnalyzer.VisitVar | simple/rust/part15/src/semantic.rs:129-134 | computes `AnalyzeVar` |
| Semantic.SemanticAnalyzer.VisitAll | simple/rust/part15/src/semantic.rs:29-31 | the `for` loop computes `AnalyzeAll` |
| Semantic.SemanticAnalyzer.PushScope | simple/rust/part15/src/semantic.rs:38-42 | a new scope is opened inside the current one |
| Semantic.SemanticAnalyzer.PopScope | simple/rust/part15/src/semantic.rs:49 | the innermost scope is closed and its enclosing scope is current again |
| Semantic.SemanticAnalyzer.VisitProgram | simple/rust/part15/src/semantic.rs:34-53 | computes `AnalyzeProgram` |
| Semantic.SemanticAnalyzer.DeclareParams | simple/rust/part15/src/semantic.rs:78-86 | the loop over parameters adds them to the current scope as `AddParams` says |
| Semantic.SemanticAnalyzer.VisitProcedure | simple/rust/part15/src/semantic.rs:59-97 | computes `AnalyzeProcedure` |
| AnalyzerProperties.VarDeclOutcome | simple/rust/part15/src/semantic.rs:114-128 | a VarDecl fails with DUPLICATE_ID exactly when the name is already in the current scope; otherwise the name is bound there to its type and lookup finds it |
| AnalyzerProperties.ShadowingAccepted | simple/rust/part15/src/semantic.rs:121-127 | declaring a name that an enclosing scope already declares succeeds, and lookup then finds the inner one |
| AnalyzerProperties.VarOutcome | simple/rust/part15/src/semantic.rs:129-134 | a Var fails with ID_NOT_FOUND carrying its token exactly when chained lookup finds nothing; the chain is unchanged |
| AnalyzerProperties.RightOperandFirst | simple/rust/part15/src/semantic.rs:102-113 | Assign and BinOp check the right operand first; an error there is the one reported |
| AnalyzerProperties.UndeclaredOperandsReportRight | simple/rust/part15/src/semantic.rs:110-113 | with both operands undeclared, the right-hand name is reported |
| AnalyzerProperties.UnaryOperandUnchecked | simple/rust/part15/src/semantic.rs:98-101 | the operand of a unary operator is not inspected, so an undeclared name under `-` is not reported |
| AnalyzerProperties.AnalyzeAllAppend | simple/rust/part15/src/semantic.rs:29-31 | visiting a sequence is visiting its halves in turn, the second only when the first passes |
| AnalyzerProperties.FirstErrorStops | simple/rust/part15/src/semantic.rs:25-33 | the first node that fails decides the outcome and the nodes after it are not visited |
| AnalyzerProperties.ProcedureOutcome | simple/rust/part15/src/semantic.rs:59-97 | a procedure passes exactly when its body passes, in a scope named after it one level deeper that holds every parameter, inside the scope holding its symbol |
| AnalyzerProperties.ParamBound | simple/rust/part15/src/semantic.rs:78-86 | the last parameter of a name is the one its scope binds |
| AnalyzerProperties.AddParamsKeeps | simple/rust/part15/src/semantic.rs:78-86 | parameters of other names leave an entry as it was |
| AnalyzerProperties.ProgramRestoresRoot | simple/rust/part15/src/semantic.rs:34-53 | a program that passes from the root leaves exactly the root scope |
| AnalyzerProperties.Example | simple/rust/part15/src/parser.rs:99-114 | the tree of `PROGRAM P1; VAR a,b:INTEGER; BEGIN a:=2; b:=10 DIV a; END.` has the shape of a parsed program |
| AnalyzerProperties.ExamplePasses | simple/rust/part15/src/semantic.rs:23-137 | that program passes the analysis and leaves the root scope as it was |
| AnalyzerProperties.ExampleDeclarations | simple/rust/part15/src/semantic.rs:114-128 | its declarations bind `a`, then `b`, in "global" |
| AnalyzerProperties.ExampleStatements | simple/rust/part15/src/semantic.rs:54-58 | its statements use only declared names |
| AnalyzerProperties.UndeclaredReported | simple/rust/part15/src/semantic.rs:129-134 | `x := y` with only `x` declared reports ID_NOT_FOUND for `y` |
| Rows.InsertRow | simple/rust/part15/src/interpreter.rs:62 | inserting a row adds exactly one row |
| Rows.CommonPrefix | simple/rust/part15/src/interpreter.rs:62 | the longest common prefix of two strings, after which they differ |
| Rows.BelowIrreflexive | simple/rust/part15/src/interpreter.rs:62 | the string order is irreflexive |
| Rows.BelowTotal | simple/rust/part15/src/interpreter.rs:62 | of two different strings one is below the other |
| Rows.PrefixShorter | simple/rust/part15/src/interpreter.rs:62 | equal prefixes have equal shorter prefixes |
| Rows.BelowTransitive | simple/rust/part15/src/interpreter.rs:62 | the string order is transitive |
| Rows.InsertRowMembers | simple/rust/part15/src/interpreter.rs:59-62 | inserting a row keeps every old row and adds the new one, as a multiset |
| Rows.InsertRowSorted | simple/rust/part15/src/interpreter.rs:62 | inserting a row with a new name keeps the rows sorted |
| Rows.SortedTail | simple/rust/part15/src/interpreter.rs:62 | the tail of sorted rows is sorted |
| Rows.InsertRowAbove | simple/rust/part15/src/interpreter.rs:62 | rows inserted after a first row stay above it |
| Rows.SortedCons | simple/rust/part15/src/interpreter.rs:62 | a row below all sorted rows can head them |
| Interpreting.AsF32 | simple/rust/part15/src/interpreter.rs:13-18 | a float is itself, an integer is converted to f32 |
| Interpreting.AtLeastOneFloat | simple/rust/part15/src/interpreter.rs:21-26 | true unless both operands are integers |
| Interpreting.TruncDiv | simple/rust/part15/src/interpreter.rs:94-98 | dividing by zero saturates the `as i32` cast: i32::MAX for a positive dividend, i32::MIN for a negative one, 0 for 0/0 |
| Interpreting.Abs | simple/rust/part15/src/interpreter.rs:94-98 | the magnitude of an integer |
| Interpreting.Arithmetic | simple/rust/part15/src/interpreter.rs:21-38 | the result is FLOAT exactly when an operand is FLOAT, holding the f32 operation; two integers give the integer operation |
| Interpreting.FloatOperation | simple/rust/part15/src/interpreter.rs:84-108 | the f32 closure of each operator keeps its two operands in order; only DIV gives a quotient |
| Interpreting.IntegerOperation | simple/rust/part15/src/interpreter.rs:84-108 | the integer path of each closure: `+` and `-` undo each other, `*` is the product, DIV is the truncated quotient |
| Interpreting.Combine | simple/rust/part15/src/interpreter.rs:82-110 | `/` always gives a FLOAT quotient; any other operator gives FLOAT exactly when an operand is FLOAT |
| Interpreting.Negate | simple/rust/part15/src/interpreter.rs:113-119 | unary minus keeps the tag of its operand |
| Interpreting.ValuedRunnable | simple/rust/part15/src/interpreter.rs:67-151 | an expression the interpreter can evaluate is a tree it can walk |
| Interpreting.Valued | simple/rust/part15/src/interpreter.rs:80-121 | the nodes `visit_node` returns a value for without a panic are expressions only: literals, variables and operator nodes with known operators |
| Interpreting.Runnable | simple/rust/part15/src/interpreter.rs:67-151 | the trees `visit_node` walks without a panic; every evaluable expression is one |
| Interpreting.Visit | simple/rust/part15/src/interpreter.rs:67-151 | expressions read memory and never change it, and a successful one has a value |
| Interpreting.VisitBinOp | simple/rust/part15/src/interpreter.rs:82-110 | a binary operation leaves memory unchanged and has a value on success |
| Interpreting.VisitUnaryOp | simple/rust/part15/src/interpreter.rs:111-121 | a unary operation leaves memory unchanged and has a value on success |
| Interpreting.VisitAssign | simple/rust/part15/src/interpreter.rs:128-136 | an assignment returns no value |
| Interpreting.VisitDeclarations | simple/rust/part15/src/interpreter.rs:74-76 | the declaration loop returns no value |
| Interpreting.VisitChildren | simple/rust/part15/src/interpreter.rs:122-127 | the children loop, whose results are dropped, never removes a name from global memory |
| Interpreting.Interpreter.constructor | simple/rust/part15/src/interpreter.rs:45-48 | the memory starts empty |
| Interpreting.Interpreter.VisitNode | simple/rust/part15/src/interpreter.rs:67-151 | `visit_node` on the mutable memory computes `Visit` |
| Interpreting.Interpreter.VisitBlock | simple/rust/part15/src/interpreter.rs:70-78 | the declaration loop with `?`, then the compound statement, computes `Visit` |
| Interpreting.Interpreter.VisitBinOpNode | simple/rust/part15/src/interpreter.rs:82-110 | computes `VisitBinOp` |
| Interpreting.Interpreter.VisitUnaryOpNode | simple/rust/part15/src/interpreter.rs:111-121 | computes `VisitUnaryOp` |
| Interpreting.Interpreter.VisitAssignNode | simple/rust/part15/src/interpreter.rs:128-136 | computes `VisitAssign` |
| Interpreting.Interpreter.VisitChildNodes | simple/rust/part15/src/interpreter.rs:122-127 | the loop over children computes `VisitChildren`, dropping each result |
| Interpreting.Interpreter.GlobalMemoryRows | simple/rust/part15/src/interpreter.rs:57-65 | the report lists every binding exactly once, with its value, strictly sorted by name |
| Interpreting.Interpreter.Interpret | simple/rust/part15/src/interpreter.rs:50-55 | the memory is what `Visit` leaves; an error is the visit's error; otherwise the sorted report of the whole memory |
| InterpreterProperties.Promotion | simple/rust/part15/src/interpreter.rs:21-38 | a binary operator gives FLOAT exactly when it is `/` or an operand is FLOAT |
| InterpreterProperties.IntegerOperands | simple/rust/part15/src/interpreter.rs:83-108 | on two integers `+`, `-` and `*` give the exact sum, difference and product, `DIV` the truncated quotient, and `/` a FLOAT quotient |
| InterpreterProperties.IntegerDivOnFloats | simple/rust/part15/src/interpreter.rs:94-98 | `DIV` with a FLOAT operand does not truncate: it gives the float quotient, as `/` does |
| InterpreterProperties.TruncDivBounds | simple/rust/part15/src/interpreter.rs:97 | `DIV` rounds toward zero: the quotient times the divisor does not pass the dividend in magnitude, and comes within one divisor of it |
| InterpreterProperties.AbsProduct | simple/rust/part15/src/interpreter.rs:97 | the magnitude of a product is the product of the magnitudes |
| InterpreterProperties.TruncDivOdd | simple/rust/part15/src/interpreter.rs:97 | truncation is symmetric about zero, and is ordinary division on non-negative operands |
| InterpreterProperties.TruncDivExamples | simple/rust/part15/src/interpreter.rs:97 | `-7 DIV 2` is -3, and division by zero follows the saturation rule |
| InterpreterProperties.DivisionByZero | simple/rust/part15/src/interpreter.rs:94-98 | `10 DIV 0` runs and gives i32::MAX |
| InterpreterProperties.UnaryOperators | simple/rust/part15/src/interpreter.rs:111-121 | unary plus returns its operand unchanged; unary minus negates it and keeps the tag |
| InterpreterProperties.LeftOperandFirst | simple/rust/part15/src/interpreter.rs:82-108 | operands are evaluated left then right, the first error is returned, and otherwise the operator combines the two values |
| InterpreterProperties.VarReads | simple/rust/part15/src/interpreter.rs:137-143 | a Var returns the stored value, or ID_NOT_FOUND when the name is not in memory |
| InterpreterProperties.AssignBinds | simple/rust/part15/src/interpreter.rs:128-136 | an assignment binds the name to the right side's value, overwriting any earlier binding, and changes no other; when the right side fails, memory is unchanged and its error is returned |
| InterpreterProperties.CompoundNeverFails | simple/rust/part15/src/interpreter.rs:122-127 | a compound statement runs every child and always returns `Ok(None)` |
| InterpreterProperties.ChildrenAppend | simple/rust/part15/src/interpreter.rs:123-125 | the children run left to right: the first part, then the rest from the memory it left |
| InterpreterProperties.FailedStatementSkipped | simple/rust/part15/src/interpreter.rs:122-127 | a failing statement does not stop the ones after it |
| InterpreterProperties.DeclarationsDoNothing | simple/rust/part15/src/interpreter.rs:79 | VarDecl, ProcedureDecl and NoOp leave memory unchanged and return nothing |
| InterpreterProperties.ExprValued | simple/rust/part15/src/interpreter.rs:82-121 | every expression the parser builds can be evaluated without a panic |
| InterpreterProperties.StatementRunnable | simple/rust/part15/src/interpreter.rs:122-136 | every statement the parser builds can be walked without a panic |
| InterpreterProperties.DeclarationsRun | simple/rust/part15/src/interpreter.rs:74-76 | a declaration list runs without failing and without changing memory |
| InterpreterProperties.ProgramNeverFails | simple/rust/part15/src/interpreter.rs:69-78 | a parsed program never fails at run time; its memory is what its statements leave |
| InterpreterProperties.ExampleMemory | simple/rust/part15/src/interpreter.rs:67-151 | the worked example ends with memory `a ↦ 2`, `b ↦ 5`, both integers |
| InterpreterProperties.ExampleStatementsRun | simple/rust/part15/src/interpreter.rs:122-136 | the example's statements, one after the other |
| InterpreterProperties.ThreeChildren | simple/rust/part15/src/interpreter.rs:122-127 | three statements of a compound run in order, each from the memory the one before left |
| InterpreterProperties.ExampleDivision | simple/rust/part15/src/interpreter.rs:94-98 | `b := 10 DIV a` with `a` = 2 binds `b` to 5 |
| InterpreterProperties.LiteralDividedByVariable | simple/rust/part15/src/interpreter.rs:94-98 | `n DIV y`, with `y` bound to an integer, evaluates to the truncated quotient and leaves memory unchanged |
| WorkedExample.Starts | simple/rust/part15/src/parser.rs:74-85 | the parser built on the example text stands on `PROGRAM`, seven characters in |
| WorkedExample.TextScans | simple/rust/part11/src/lexer.rs:113-155 | the example text is scanned, call after call of `next_token`, as `PROGRAM P1 ; VAR a , b : INTEGER ; BEGIN a := 2 ; b := 10 DIV a ; END .` and then EOF, each token ending where its characters end |
| WorkedExample.VariablesScanned | simple/rust/part15/src/parser.rs:225-256 | the tokens `a , b : INTEGER` are the stream a declaration of `a` and `b` is read from |
| WorkedExample.VariablesParsed | simple/rust/part15/src/parser.rs:225-256 | `a , b : INTEGER` declares `a`, then `b`, both INTEGER, and stops on the `;` after it |
| WorkedExample.DeclarationsParsed | simple/rust/part15/src/parser.rs:127-174 | `VAR`, one declaration, `;` and then `BEGIN` gives that declaration's variables and stops on `BEGIN` |
| WorkedExample.LiteralAssignmentParsed | simple/rust/part15/src/parser.rs:301-311 | `x := v` before `;`, with `v` an integer literal, is the assignment of that literal to `x` |
| WorkedExample.DivisionTokens | simple/rust/part15/src/parser.rs:327-369 | `n DIV y` is an expression the parser builds, written as its three tokens |
| WorkedExample.DivisionAssignmentParsed | simple/rust/part15/src/parser.rs:301-311 | `x := n DIV y` before `;` is the assignment of the quotient to `x` |
| WorkedExample.StatementListParsed | simple/rust/part15/src/parser.rs:275-287 | two statements, each followed by `;`, then `END` give the two and the empty statement, and stop on `END` |
| WorkedExample.ProgramParsed | simple/rust/part15/src/parser.rs:99-114 | `PROGRAM P1 ;`, a block and `.` followed by EOF parse as the program `P1` of that block |
| WorkedExample.ExampleDeclarationsParsed | simple/rust/part15/src/parser.rs:127-174 | on a text scanned as the example, the declarations are `a` and `b`, both INTEGER |
| WorkedExample.ExampleStatementsParsed | simple/rust/part15/src/parser.rs:275-287 | on a text scanned as the example, the statements are `a := 2`, `b := 10 DIV a` and the empty one |
| WorkedExample.ExampleTokensParse | simple/rust/part15/src/parser.rs:405-437 | any text scanned as the example's tokens is parsed as the example's tree, ending at EOF |
| WorkedExample.TextParses | simple/rust/part15/src/parser.rs:74-85 | `Parser::new` and `parse` on the example text give the example's tree |
| WorkedExample.TextRuns | simple/rust/part15/src/main.rs:24-31 | the whole pipeline on the example text: it parses, passes the semantic analysis from the root scope, and leaves `a = 2` and `b = 5`, both integers, in global memory |

## Left out

- The `main.rs` programs are not modelled: argument parsing, reading the source file or standard input, and the exit codes are I/O.
- Printing is not modelled: the `Display` implementations, the symbol table's `log`, the `println!` scope tracing driven by `debug_scope`, the tree dump in `interpret`, and the `{:?}` spelling of the report's values. The memory report is modelled as the sorted sequence of (name, value) rows it prints. Sorting the `name = value` strings gives the same order as sorting the names, because the space after a name sorts below every character a name can hold.
- Interpreting.Interpreter.GlobalMemoryRows: the order in which a `HashMap` is iterated is not modelled. The loop takes the remaining names in an arbitrary order, and the result is proved sorted whatever that order is.
- Real numbers are symbolic: an f32 is the expression that built it (`Literal`, `FromInt`, `Sum`, `Difference`, `Product`, `Quotient`, `Negated`). No f32 rounding, infinity or NaN is modelled, and neither is `str::parse::<f32>` of a real literal, whose text is kept as written.
- Interpreting.IntegerOperation: the integer path is exact on all integers. The source computes it in f32 and casts back with `as i32`, which is exact only while operands and results stay below 2^24 in magnitude, and saturates outside the i32 range. Neither the f32 rounding nor the i32 saturation is modelled, except for division by zero. There, Rust's cast turns the infinite quotient into i32::MAX or i32::MIN, and NaN into 0, and the model does the same.
- Interpreting.Negate: integer negation is exact. The source negates an i32, which overflows on i32::MIN (a panic in a debug build, a wrap to i32::MIN in a release build). i32::MIN is reachable in the model, as the value of `-1 DIV 0`, and there the model gives 2^31.
- Lexing.DigitsValue: an integer literal's value is unbounded. The source panics in `parse().unwrap()` when the literal does not fit an i32.
- Panics are preconditions rather than modelled paths:
  - Lexing.Lexer.constructor requires non-empty input, because `line[0]` is indexed;
  - Interpreting.Visit requires `Runnable`: no operator other than the four arithmetic ones, and no statement as an operand, because of the `panic!` arms and the `unwrap` of a missing value;
  - Symbols.ScopedSymbolTable.Lookup requires `CanLookup`, because of the `unwrap` of a missing enclosing scope;
  - Grammar.Start and Grammar.ParseSource require non-empty text, because `Lexer::new` indexes `line[0]` before `Parser::new` reads the first token.
  - The `panic!("impossible")` in `program` cannot be reached: `variable` returns only Var nodes.
- Semantic.Analyze requires a chain of at least two scopes except for a Program node. Outside a program the source unwraps the missing enclosing scope of the root in `lookup`.
- Source positions are not modelled. The part11 lexer computes no line or column, so a token is its kind alone, and an error carries the offending kind.
- The lexer's keyword table also holds PROCEDURE. The part11 table lacks it, but the part15 parser needs it, and the token kind exists in part15 `token.rs:30`.
- Errors carry the offending token. `errors.rs` declares ID_NOT_FOUND and DUPLICATE_ID with a String payload, but `semantic.rs` passes the token, so the model follows `semantic.rs`. The interpreter's ID_NOT_FOUND passes the name, which the model wraps as an identifier token.
- The interpreter's patterns for VarDecl and Var leave out the `token` field. They are modelled as matching those nodes whatever their token.
- Duplicate parameter names are not reported, as in the source. The parameters are inserted one after the other, and the last one of a name wins.
- Only the one worked example, `PROGRAM P1; VAR a,b:INTEGER; BEGIN a:=2; b:=10 DIV a; END.`, is followed from its text to its memory (`WorkedExample`). Reading back a tree from its tokens is proved for every expression and variable declaration; for a whole program it is proved on this example only.
- The earlier increments (parts 1 to 14, the Go calculators and the flat symbol tables) are not part of this model.
