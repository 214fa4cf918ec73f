# tinycc in Dafny

A model of three stages of tinycc, a small C compiler written for teaching,
with proofs about each stage.

1. **The calculator** (`tinycc.c`). It tokenizes an arithmetic expression
   over integers (`+ - * / ( ) == != < <= > >=`) and parses it by recursive
   descent. It then prints x86-64 stack-machine code that leaves the
   expression's value in `rax`.
   - Modules: `CalcLex`, `CalcParse`, `CalcParseProps`, `CalcGen`.
   - Shared modules: `Asm` (the target machine) and `BinOps` (the operator
     code).
2. **The statement compiler** (`parse.c`, `codegen.c`). It adds local
   variables, assignment, `return`, `if`/`else` and `for`. The tokenizer
   collects every identifier in a list of locals, and each local gets the
   offset of its position in that list. The code generator numbers the
   labels of control structures with one counter for the whole run.
   - Modules: `StmtLex`, `StmtParse`, `StmtParseProps`, `StmtGen`,
     `StmtGenProps`.
3. **The typed front end**:
   - the tokenizer (`tokenizer.c`);
   - the circular list (`list.c`);
   - the types `int`, `char`, pointer, array and function (`type.c`);
   - the scoped symbol table (`sym.c`);
   - declarations and declarators, parameters, stack offsets and function
     definitions (`decl.c`);
   - typed expressions with pointer arithmetic (`expr.c`);
   - statements with block scopes (`stmt.c`).

   Modules: `CLex`, `CTokens`, `CList`, `Types`, `Sym`, `CExpr`,
   `CExprProps`, `CDecltr`, `CDecltrProps`, `CStmt`, `CStmtProps` and
   `CParser`.

## How the model is built

- **Parsers, two layers.** Each parser is first given as pure functions over
  the token list, a cursor and the parser state. These are the reference
  grammar. It is then given again as a class whose methods move the cursor
  and update the state in place, as the C globals do: `CalcParse.Parser`,
  `StmtParse.Front` and `CParser.Parser`. Each method is proved to return the
  same result, end at the same cursor and leave the same state as its
  function.
- **Loops.** Loops stay loops, and each carries invariants tying it to its
  function:
  - the tokenizers;
  - the `while (consume(...))` operator loops;
  - the declarator list of `ex_decltn`;
  - `trns_unit`'s collection of function definitions;
  - the list walks of `list.c`.
- **Mutable state.** The symbol table (`Sym.SymTab`), the code generator
  (`StmtGen.CodeGen`, holding the output and the label counter) and the
  circular list (`CList.ListLib`, `Cell`, `ListVar`) are classes. Their
  methods change their fields in place.
- **Errors.** Every error the C code reports with `error`, `error_at` or
  `error_tok`, after which it exits, is an `Err` carrying a message.
  - The messages the C code writes in English are kept. The `%s` of the
    non-ANSI message, for which the C code passes no argument, is filled
    with the function's name (`CStmt.NonAnsi`).
  - The Japanese messages are given as English paraphrases: "expected
    '…'", "not a number", "cannot tokenize", "type error: not an int",
    "more than 6 arguments", "not an lvalue".
  - Some errors exist only in the model. Each stands where the C code goes
    on with a NULL pointer or an undefined value, or divides by zero:
    `CDecltr.NoTypeSpecifier`, `CDecltr.NoIdentifier`, `CExpr.Untyped`,
    `CExpr.NoSize`, `CExpr.MissingArgument` and `CExpr.DivByZero` (see
    Left out).
- **Bytes and words.** Integers are unbounded. The code generators' output is
  a sequence of abstract instructions (`Asm.Instr`). The machine `Asm.Run`
  executes it on an evaluation stack and a memory of local variables.

### The typed front end, as written and corrected

Where the typed front end has a defect (see Findings), its parsing functions
take a `Dialect`. It covers the parenthesised declarator, the function body's
`{` and the list `arg_list` returns:

- `AsWritten` follows the C code.
- `Corrected` follows the evident intent.

Both are modelled and proved. The statement compiler's `StmtParse.Front`
takes a `StmtLex.Dialect` in the same way, for `update_locals`.

Two behaviours are modelled as the C code has them. It marks both as
unfinished (TODO):

- **`add_node` scaling.** It scales an integer added to a pointer by 4 for
  an `int` or array pointee, 8 for a pointer and 1 for a `char`, and then by
  the row length when the left side is a two-dimensional array. The scale
  equals the pointee's size for `int`, `char`, pointers and rows of `int`
  (`CExprProps.ScaleIsPointeeSize`, `CExprProps.RowScaleIsRowSize`). It does
  not for rows of `char` or for pointers to rows
  (`CExprProps.CharRowMisscaled`, `CExprProps.PointerToRowMisscaled`).
- **`sizeof` of a product or quotient.** It multiplies or divides by the
  node's `val` field, which is 0 for such a node (`CExpr.SizeOf`).

## Model

| member | source | states |
|---|---|---|
| Util.DigitRun | tinycc.c:145-151 | the digit run a number token spans is maximal: every character in it is a digit and the next one is not |
| Util.AlnumRun | parse.c:179-189 | an identifier spans the maximal run of letters, digits and `_` |
| Util.DecimalString | tinycc.c:145-151 | the printed form of a natural number is a nonempty string of digits |
| Util.DecimalRoundTrip | tinycc.c:145-151 | reading back the digits of a printed number (`strtol`) gives the number again |
| Asm.SetReg | tinycc.c:274-321 | writing a register sets that register and leaves every other register, `al`, the compared operands, the stack and memory as they were |
| Asm.TruncDiv | tinycc.c:293-296 | `idiv`'s quotient has the magnitude of the quotient of the magnitudes and is positive only for operands of equal sign, negative only for operands of opposite sign |
| Asm.Exec | tinycc.c:274-321 | one instruction's effect on the registers, the compared operands, the stack and memory; a pop of an empty stack or a division by zero faults (its meaning per operator is proved by BinOps.OpCodeCorrect) |
| Asm.Run | codegen.c:45-185 | straight-line code runs instruction by instruction and faults at the first fault (composition is proved by Asm.RunAppend) |
| Asm.TruncDivIdentity | tinycc.c:293-296 | the quotient `cqo; idiv` leaves is C's: the remainder is smaller than the divisor and has the dividend's sign |
| Asm.RunAppend | codegen.c:45-185 | running two pieces of printed code one after the other is running their concatenation |
| BinOps.OpCodeCorrect | tinycc.c:283-319 | the instructions printed for each operator put its C value in `rax` (and fail exactly on division by zero) |
| BinOps.CompareCorrect | tinycc.c:297-319 | `cmp; set<cc>; movzb` leaves 1 in `rax` if the condition holds and 0 otherwise |
| BinOps.TailCorrect | codegen.c:143-184 | after two operands are pushed, `pop rdi; pop rax; <op>; push rax` replaces them by the operator's value |
| BinOps.OpCode | tinycc.c:283-319 | the instructions printed per operator; `>`/`>=` share `setl`/`setle` with `<`/`<=` (proved to compute `BinOps.Apply` by BinOps.OpCodeCorrect) |
| CalcLex.Tokenize | tinycc.c:125-157 | the tokenizer loop returns exactly the reference token list, or the same error |
| CalcLex.Lex | tinycc.c:125-157 | the reference token list of an input (its shape is proved by CalcLex.LexWellFormed, CalcLex.LexPositions and CalcLex.LexCoversInput) |
| CalcLex.Advance | tinycc.c:131-153 | one loop turn skips a blank or reads the reference lexeme, keeping the invariant that the tokens so far followed by the tokens of the rest are the tokens of the input; a character no branch accepts makes the whole input fail |
| CalcLex.LexEndsWithEof | tinycc.c:155-156 | a tokenized input ends with one end-of-input token and has no other |
| CalcLex.LexWellFormed | tinycc.c:125-157 | every token is a two-character operator, a one-character symbol or a maximal digit run with its decimal value |
| CalcLex.LexPositions | tinycc.c:115-122 | each token points into the input, and the tokens appear in input order without overlapping |
| CalcLex.LexCoversInput | tinycc.c:125-157 | the tokens' texts, concatenated, are the input with the blanks removed |
| CalcLex.LexAcceptedChars | tinycc.c:152-153 | tokenizing succeeds only on inputs made of blanks, digits and operator characters |
| CalcLex.LexAcceptsPlainChars | tinycc.c:125-157 | every input made of blanks, digits and one-character symbols tokenizes |
| CalcLex.LexUnfold | tinycc.c:131-152 | a tokenized input that does not start with a blank starts with an operator or a digit and splits into its first token and the tokens of the rest |
| CalcParse.ParseExpr | tinycc.c:183-185 | `expr` consumes at least one token and never moves past the end marker |
| CalcParse.ParseEquality | tinycc.c:187-201 | `equality` consumes at least one token and never moves past the end marker |
| CalcParse.ParseRelational | tinycc.c:202-221 | `relational` consumes at least one token and never moves past the end marker |
| CalcParse.ParseAdd | tinycc.c:223-237 | `add` consumes at least one token and never moves past the end marker |
| CalcParse.ParseMul | tinycc.c:239-253 | `mul` consumes at least one token and never moves past the end marker |
| CalcParse.ParseUnary | tinycc.c:255-263 | `unary` consumes at least one token and never moves past the end marker |
| CalcParse.ParsePrimary | tinycc.c:265-272 | `primary` consumes at least one token and never moves past the end marker |
| CalcParse.Parser.constructor | tinycc.c:330-331 | the parser starts at the first token of the list |
| CalcParse.Parser.Consume | tinycc.c:82-88 | `consume` advances exactly when the token is a symbol starting with the operator |
| CalcParse.Parser.Expect | tinycc.c:92-97 | `expect` advances on the operator and otherwise fails with "expected" |
| CalcParse.Parser.ExpectNumber | tinycc.c:101-108 | `expect_number` returns a number token's value and advances, or fails without moving |
| CalcParse.Parser.Expr | tinycc.c:183-185 | the method returns the tree and cursor of the reference grammar |
| CalcParse.Parser.Equality | tinycc.c:187-201 | the loop over `==`/`!=` builds the reference left-associative tree |
| CalcParse.Parser.Relational | tinycc.c:202-221 | the loop over comparisons builds the reference tree, operands of `>`/`>=` swapped |
| CalcParse.Parser.Add | tinycc.c:223-237 | the loop over `+`/`-` builds the reference left-associative tree |
| CalcParse.Parser.Mul | tinycc.c:239-253 | the loop over `*`/`/` builds the reference left-associative tree |
| CalcParse.Parser.Unary | tinycc.c:255-263 | unary `+` is dropped and unary `-x` becomes `0 - x`, as the reference grammar says |
| CalcParse.Parser.Primary | tinycc.c:265-272 | a parenthesised expression or a number, as the reference grammar says |
| CalcParseProps.PrimaryOf | tinycc.c:265-272 | a printed tree is parsed back by `primary` into the same tree |
| CalcParseProps.UnaryOf | tinycc.c:255-263 | a printed tree is parsed back by `unary` into the same tree |
| CalcParseProps.MulOf | tinycc.c:239-253 | a printed tree followed by a non-`*`/`/` token is parsed back by `mul` |
| CalcParseProps.AddOf | tinycc.c:223-237 | a printed tree followed by a non-additive token is parsed back by `add` |
| CalcParseProps.RelOf | tinycc.c:202-221 | a printed tree followed by a non-comparison token is parsed back by `relational` |
| CalcParseProps.ExprOf | tinycc.c:183-201 | a printed tree followed by a token that ends expressions is parsed back by `expr` |
| CalcParseProps.MulLevel | tinycc.c:239-253 | `a*b` and `a/b` parse into one product or quotient node of the two operands |
| CalcParseProps.AddLevel | tinycc.c:223-237 | `a+b` and `a-b` parse into one sum or difference node |
| CalcParseProps.RelLevel | tinycc.c:202-221 | `a<b`, `a<=b` keep the operand order; `a>b`, `a>=b` become nodes with the operands swapped |
| CalcParseProps.EqLevel | tinycc.c:187-201 | `a==b` and `a!=b` parse into one equality node |
| CalcParseProps.InSourceOrder | tinycc.c:187-253 | every binary operator except `>`/`>=` keeps its operands in source order |
| CalcParseProps.ParsePrintRoundTrip | tinycc.c:183-272 | printing any tree (fully parenthesised) and parsing it gives back the same tree |
| CalcParseProps.MulUnderAdd | tinycc.c:223-253 | `a+b*c` is `a+(b*c)`: multiplication binds tighter than addition |
| CalcParseProps.SubThenSub | tinycc.c:223-237 | `a-b-c` is `(a-b)-c`: subtraction associates to the left |
| CalcParseProps.AddTailStep | tinycc.c:223-237 | one turn of the `add` loop: `+`/`-` and the next product make the tree so far the left operand of a new node, so a chain nests to the left |
| CalcParseProps.MulTailStep | tinycc.c:239-253 | one turn of the `mul` loop: `*`/`/` and the next unary make the tree so far the left operand, so a chain nests to the left |
| CalcParseProps.EqualityTailStep | tinycc.c:187-201 | one turn of the `equality` loop: `==`/`!=` and the next comparison make the tree so far the left operand, so `a==b!=c` is `(a==b)!=c` |
| CalcParseProps.RelationalTailStep | tinycc.c:202-221 | one turn of the `relational` loop: `<`/`<=` make the tree so far the left operand, `>`/`>=` the right one; either way the chain nests to the left |
| CalcParseProps.RelationOperands | tinycc.c:202-221 | for any two trees the comparison parses with the operand order of `RelLevel` |
| CalcParseProps.NegationIsSubtraction | tinycc.c:258-260 | `-x` parses as `0 - x` |
| CalcGen.GenCorrect | tinycc.c:274-321 | the code of any tree fails exactly when its C value is undefined (division by zero); otherwise it pushes exactly that value |
| CalcGen.CompileReturnsValue | tinycc.c:323-347 | the whole program starting from an empty stack, fails exactly when the expression has no value and otherwise leaves its value in `rax` and the stack empty |
| CalcGen.ComparisonMeaning | tinycc.c:202-221 | although `a>b` is parsed as `b<a`, the compiled value of each comparison is C's |
| CalcGen.Gen | tinycc.c:274-321 | the code of every tree ends by pushing its value (its meaning is proved by CalcGen.GenCorrect) |
| CalcGen.Eval | tinycc.c:274-321 | the C value of a tree; a tree has none only when one of its operands has none or it divides by zero |
| CalcGen.Compile | tinycc.c:342-343 | the code `main` prints between prologue and `ret`: the tree's code, then `pop rax` (proved by CalcGen.CompileReturnsValue) |
| StmtLex.Lexeme | parse.c:129-193 | a token starts at the current character, spans at least one character and is never the end marker |
| StmtLex.Word | parse.c:159-189 | a keyword or identifier token starts at the current character |
| StmtLex.LexemeKinds | parse.c:129-193 | the first character decides the token: a two-character operator or an operator character gives a symbol of that length, a digit a number spanning the digit run, a letter a keyword or an identifier, and anything else no token |
| StmtLex.Lex | parse.c:129-193 | the reference token list of an input (its shape is proved by StmtLex.LexUnfold and StmtLex.LexEndsWithEof) |
| StmtLex.Position | parse.c:56-66 | `exist_in_locals` gives 0 exactly when the name is not in the list, and otherwise its first 1-based position |
| StmtLex.Register | parse.c:82-92 | (corrected `update_locals`) the name is in the list afterwards and no entry is lost |
| StmtLex.RegisterAsWritten | parse.c:82-92 | (as written) the name is in the list afterwards, and a new name leaves a list of one |
| StmtLex.Offset | parse.c:70-79 | an offset is a multiple of 8 within the list's frame, and 0 exactly for a name not in the list |
| StmtLex.LocalsOf | parse.c:179-189 | (corrected) the locals after the tokens are read (their content is proved by StmtLex.LocalsComplete) |
| StmtLex.LocalsOfAsWritten | parse.c:179-189 | (as written) the locals after the tokens are read (at most one, by StmtLex.AsWrittenAtMostOne) |
| StmtLex.LexUnfold | parse.c:129-193 | a tokenized input splits into its first token and the tokens of the rest |
| StmtLex.LexEndsWithEof | parse.c:191-192 | the token list ends with one end-of-input token and has no other |
| StmtLex.LetterIsWord | parse.c:159-189 | input starting with a letter is a keyword or an identifier |
| StmtLex.KeywordNeedsBoundary | parse.c:159-177 | `return`, `if`, `else`, `for` followed by a letter, digit or `_` are read as an identifier |
| StmtLex.KeywordToken | parse.c:159-177 | a keyword followed by a non-identifier character becomes its keyword token |
| StmtLex.LocalsComplete | parse.c:179-189 | (corrected) the locals are exactly the identifiers of the token list, each listed once |
| StmtLex.DistinctOffsets | parse.c:70-79 | (corrected) two identifiers share a stack offset exactly when they have the same name, and every offset lies in the frame |
| StmtLex.AsWrittenAtMostOne | parse.c:82-92 | `update_locals` as written keeps at most one local |
| StmtLex.AsWrittenOffsetsCollide | parse.c:82-92 | as written, `a`, `b`, `c` leave only `c`, and `a` and `b` share offset 0 |
| StmtParse.ParseStmt | parse.c:260-302 | a statement consumes at least one token and never moves past the end marker |
| StmtParse.ParseIf | parse.c:265-275 | an `if` statement consumes at least one token and never moves past the end marker |
| StmtParse.ParseFor | parse.c:276-296 | a `for` statement consumes at least one token and never moves past the end marker |
| StmtParse.Clause | parse.c:282-294 | a `for` clause consumes at least its closing token |
| StmtParse.ParseExpr | parse.c:304-306 | `expr` consumes at least one token and never moves past the end marker |
| StmtParse.ParseAssign | parse.c:308-315 | `assign` consumes at least one token and never moves past the end marker |
| StmtParse.ParseEquality | parse.c:317-331 | `equality` consumes at least one token |
| StmtParse.ParseRelational | parse.c:332-351 | `relational` consumes at least one token |
| StmtParse.RelationalOp | parse.c:332-351 | only the four comparison operators are recognised at the relational level |
| StmtParse.ParseAdd | parse.c:353-367 | `add` consumes at least one token |
| StmtParse.ParseMul | parse.c:369-383 | `mul` consumes at least one token |
| StmtParse.ParseUnary | parse.c:385-393 | `unary` consumes at least one token |
| StmtParse.ParsePrimary | parse.c:395-406 | `primary` consumes at least one token |
| StmtParse.ParseProgram | parse.c:252-258 | `program` is empty at the end marker, and a token list holds fewer statements than tokens |
| StmtParse.Front.constructor | main.c:11-24 | before tokenizing, the token list is just the end marker and there are no locals; the dialect of `update_locals` is fixed |
| StmtParse.Front.ExistInLocals | parse.c:56-66 | the list walk returns the name's 1-based position, or 0 |
| StmtParse.Front.UpdateLocals | parse.c:82-92 | as written the locals become `RegisterAsWritten` of the old ones (a new name replaces the list), corrected `Register` (a new name is appended); the cursor is unchanged |
| StmtParse.Front.Tokenize | parse.c:129-193 | the loop returns the reference token list and leaves as locals those the token list determines: `LocalsOfAsWritten` as written, `LocalsOf` corrected |
| StmtParse.Front.Advance | parse.c:134-190 | one loop step skips a space or reads the reference lexeme (the branches of `StmtLex.Lexeme`), keeping the invariant that the tokens so far followed by the tokens of the rest are the tokens of the input; a character no branch accepts makes the whole input fail |
| StmtParse.Front.AtEof | parse.c:96-98 | true exactly at the end marker |
| StmtParse.Front.ConsumeToken | parse.c:102-108 | advances exactly when the token has the kind |
| StmtParse.Front.Consume | parse.c:26-32 | advances exactly when the token is a symbol starting with the operator |
| StmtParse.Front.Expect | parse.c:36-41 | advances on the operator and otherwise fails with "expected" |
| StmtParse.Front.ExpectNumber | parse.c:45-52 | returns a number's value and advances, or fails |
| StmtParse.Front.ExpectLvar | parse.c:70-79 | an identifier yields its stack offset and advances; anything else yields -1 |
| StmtParse.Front.Program | parse.c:252-258 | the loop parses statements up to the end marker as the reference grammar does |
| StmtParse.Front.Stmt | parse.c:260-302 | the method agrees with the reference statement grammar |
| StmtParse.Front.IfStatement | parse.c:265-275 | the method agrees with the reference `if` grammar |
| StmtParse.Front.ForStatement | parse.c:276-296 | the method agrees with the reference `for` grammar |
| StmtParse.Front.ForClause | parse.c:282-294 | an omitted clause or an expression followed by its closing token |
| StmtParse.Front.Expr | parse.c:304-306 | agrees with the reference grammar |
| StmtParse.Front.Assignment | parse.c:308-315 | agrees with the reference grammar |
| StmtParse.Front.Equality | parse.c:317-331 | the operator loop agrees with the reference grammar |
| StmtParse.Front.Relational | parse.c:332-351 | the operator loop agrees with the reference grammar |
| StmtParse.Front.RelationalOperator | parse.c:334-349 | recognises the operator the reference grammar recognises and consumes it |
| StmtParse.Front.Add | parse.c:353-367 | the operator loop agrees with the reference grammar |
| StmtParse.Front.Mul | parse.c:369-383 | the operator loop agrees with the reference grammar |
| StmtParse.Front.Unary | parse.c:385-393 | agrees with the reference grammar |
| StmtParse.Front.Primary | parse.c:395-406 | agrees with the reference grammar: a parenthesised expression, a local's offset or a number |
| StmtParseProps.ExprShaped | parse.c:304-406 | every tree the expression parser returns is built only from numbers, variables, binary operators and assignments; no statement node appears inside an expression |
| StmtParseProps.AssignShaped | parse.c:308-315 | the assignment level builds only expression nodes (the left side may be any expression; the code generator rejects a non-variable) |
| StmtParseProps.EqualityShaped | parse.c:317-331 | the equality level builds only expression nodes |
| StmtParseProps.RelationalShaped | parse.c:332-351 | the relational level builds only expression nodes |
| StmtParseProps.AddShaped | parse.c:353-367 | the additive level builds only expression nodes |
| StmtParseProps.MulShaped | parse.c:369-383 | the multiplicative level builds only expression nodes |
| StmtParseProps.UnaryShaped | parse.c:385-393 | the unary level builds only expression nodes |
| StmtParseProps.PrimaryShaped | parse.c:395-406 | a primary is a number, a variable or a parenthesised expression |
| StmtParseProps.AssignRight | parse.c:308-315 | `x = e` assigns the parse of `e` to `x`'s offset: assignment associates to the right |
| StmtParseProps.ClauseOmitted | parse.c:282-294 | a `for` clause is omitted exactly when its closing token comes first; otherwise it is an expression ended by that token |
| StmtParseProps.ElseOptional | parse.c:265-275 | an `if` statement has an else branch exactly when `else` follows its body |
| StmtParseProps.Semicolons | parse.c:260-302 | every statement other than `if` and `for` ends with `;` |
| StmtParseProps.VarThenSemicolon | parse.c:395-406 | a variable followed by `;` is the whole expression |
| StmtParseProps.ChainedAssignment | parse.c:308-315 | `a=b=c;` parses as `a=(b=c)` |
| StmtGen.GenCode | codegen.c:45-185 | the code of a tree uses one counter value per control structure in it |
| StmtGen.IfCode | codegen.c:72-89 | an `if` takes one counter value plus those of its parts |
| StmtGen.ForCode | codegen.c:90-111 | a `for` takes one counter value plus those of its parts |
| StmtGen.WhileCode | codegen.c:112-126 | a `while` takes one counter value plus those of its parts |
| StmtGen.GenOpt | codegen.c:92-96 | an omitted `for` clause prints nothing and takes no counter value |
| StmtGen.GenTest | codegen.c:97-104 | a `for` test takes the counter values of its expression |
| StmtGen.GenBlock | codegen.c:127-137 | a block takes the counter values of its statements |
| StmtGen.FrameSize | codegen.c:25-30 | the frame is the offset of the first local, or 0 without locals |
| StmtGen.GenBody | codegen.c:198-202 | the top-level statements take exactly the counter values of their control structures |
| StmtGen.CodeGen.constructor | codegen.c:20-23 | the output starts empty and the counter at 1 |
| StmtGen.CodeGen.Emit | codegen.c:45-185 | printing appends the lines to the output |
| StmtGen.CodeGen.Count | codegen.c:20-23 | `count` returns the counter and increments it |
| StmtGen.CodeGen.GenLval | codegen.c:35-43 | a variable pushes its address `rbp - offset`; anything else is "not an lvalue" |
| StmtGen.CodeGen.Gen | codegen.c:45-185 | `gen` prints exactly the reference code of the tree and advances the counter as it says |
| StmtGen.CodeGen.GenIf | codegen.c:72-89 | prints exactly the reference `if` code |
| StmtGen.CodeGen.GenFor | codegen.c:90-111 | prints exactly the reference `for` code |
| StmtGen.CodeGen.GenOptional | codegen.c:92-110 | prints an optional clause as the reference says |
| StmtGen.CodeGen.GenForTest | codegen.c:97-104 | prints the `for` test and its exit jump as the reference says |
| StmtGen.CodeGen.GenWhile | codegen.c:112-126 | prints exactly the reference `while` code |
| StmtGen.CodeGen.GenStmts | codegen.c:127-137 | the block loop prints the reference block code |
| StmtGen.CodeGen.Codegen | codegen.c:187-207 | prints the prologue, the statements and the epilogue of `main` as the reference says |
| StmtGen.CodeGen.GenTopLevel | codegen.c:198-203 | the loop over top-level statements prints the reference body |
| StmtGen.BlockStep | codegen.c:127-137 | a block's code is its first statement's code, a `pop rax` if more follow, then the rest |
| StmtGen.BodyStep | codegen.c:198-203 | the body's code is the first statement's code with `pop rax`, then the rest |
| StmtGen.GenProgram | codegen.c:187-207 | the program's code is the prologue, the body and the epilogue, fails exactly when the body does, and advances the counter by the control structures of the body |
| StmtGen.LvalCode | codegen.c:35-43 | the address code of a variable (it pushes `rbp - offset`, by StmtGenProps.LvalRun) |
| StmtGenProps.LabelsSound | codegen.c:45-185 | every label the code of a tree uses is numbered within the counter range it took, is defined exactly once and is jumped to only when defined |
| StmtGenProps.OptLabels | codegen.c:92-110 | labels of an optional clause are sound |
| StmtGenProps.IfLabels | codegen.c:72-89 | labels of an `if` are sound |
| StmtGenProps.WhileLabels | codegen.c:112-126 | labels of a `while` are sound |
| StmtGenProps.ForLabels | codegen.c:90-111 | labels of a `for` are sound |
| StmtGenProps.BlockLabels | codegen.c:127-137 | labels of a block are sound |
| StmtGenProps.BodyLabels | codegen.c:198-203 | labels of the statement list are sound |
| StmtGenProps.ProgramLabels | codegen.c:187-207 | every label in the whole program is defined exactly once and every jump has its label |
| StmtGenProps.Outside | codegen.c:20-23 | code mentions no label outside the counter range it took |
| StmtGenProps.IfOwnLabels | codegen.c:72-89 | an `if` defines its else and end labels once and jumps to each once |
| StmtGenProps.IfWithoutElse | codegen.c:84-88 | without `else` the else label is defined right before the end label |
| StmtGenProps.ForOwnLabels | codegen.c:90-111 | a `for` defines its begin and end labels once, loops back once, and jumps to the end only when it has a test |
| StmtGenProps.ForEver | codegen.c:90-111 | `for(;;) body` is the body in an unconditional loop |
| StmtGenProps.LvalRun | codegen.c:35-43 | a variable's address code pushes `rbp - offset` |
| StmtGenProps.LoadRun | codegen.c:50-55 | loading replaces an address by the value stored there |
| StmtGenProps.StoreRun | codegen.c:56-63 | an assignment stores the value at the address and leaves the value |
| StmtGenProps.ExprCorrect | codegen.c:45-185 | the code of every tree pushes the value its evaluation gives, with the memory it gives; for expressions it fails exactly when the evaluation does |
| StmtGenProps.LVarCorrect | codegen.c:50-55 | reading a variable pushes the value stored at its slot |
| StmtGenProps.AssignCorrect | codegen.c:56-63 | an assignment pushes the assigned value and updates the variable's slot |
| StmtGenProps.BinCorrect | codegen.c:143-184 | a binary operator pushes its C value of its operands' values |
| StmtGenProps.BinStep | codegen.c:143-184 | two operand codes and the operator tail compute the operator's value |
| StmtGenProps.BlockCorrect | codegen.c:127-137 | a block leaves the value of its last statement |
| StmtGenProps.BodyCorrect | codegen.c:198-202 | when the statements evaluate, their code leaves the last statement's value in `rax`, the memory they produce, and the stack and `rbp` as they were |
| StmtGenProps.NestedBlockValue | codegen.c:127-137 | in the tree form of a block, `{1; {2;} 3;}` leaves 3 (codegen.c cannot hold this chain; see Left out) |
| StmtGenProps.AcceptedIsExpr | parse.c:304-406 | every parsed expression is one the evaluator treats as an expression |
| StmtGenProps.ParsedExprCorrect | codegen.c:45-185 | for every parsed expression the generator accepts, the code fails exactly when evaluation fails and otherwise pushes its value and leaves its memory |
| CList.Cell.constructor | list.c:14-16 | a new cell holds the item and no link |
| CList.ListVar.constructor | list.c:37-51 | a list variable holds the list it is given |
| CList.Slots | list.c:37-51 | the vector `ltov` makes holds the items in order, then a NULL |
| CList.ListLib.constructor | list.c:10 | no list has been started: `listhead` is NULL |
| CList.ListLib.Append | list.c:13-24 | the item is linked in after the last cell; the new cell is the list's last; `listhead` is set when the list was empty |
| CList.ListLib.Length | list.c:26-35 | the walk around the cycle counts the items |
| CList.ListLib.Ltov | list.c:37-51 | the vector holds the items in order, NULL-terminated, and the list variable is cleared |
| CList.ListLib.GetHead | list.c:53-55 | returns the head of the last list started |
| CList.ListLib.Delete | list.c:57-59 | the list variable is cleared |
| Types.TypeSize | type.c:11-26 | `int` is 4 bytes, `char` 1, a pointer 8, an array its count times its element size |
| Types.Scalar | type.c:11-26 | the element type under all array layers is not an array |
| Types.ArraySize | type.c:11-26 | an array's size is its number of scalars times the scalar size |
| Types.SizePositive | type.c:11-26 | every type without a zero-length array has a positive size |
| Types.StoredSize | type.c:28-34 | a type record stores its size, 0 for a function |
| Types.PtrTo | type.c:35-37 | `ptr(t)` is 8 bytes and dereferences to `t` |
| Types.Deref | type.c:38-44 | `deref` succeeds exactly on pointers and arrays, giving the pointee or element, and otherwise fails with "pointer expected" |
| Types.Atop | type.c:48-54 | `atop` succeeds exactly on arrays, giving an 8-byte pointer to the element, and otherwise fails with "array expected" |
| Types.DecayKeepsPointee | type.c:38-54 | an array and the pointer it decays to dereference to the same type |
| Types.TwoByThree | type.c:11-26 | `int[2][3]` is 24 bytes and holds 6 integers |
| Sym.Initial | sym.c:11-17 | the table before `initscope`, one file scope that `globals` and `identifiers` both point at, is well formed |
| Sym.FirstNamed | sym.c:40-49 | the scan of one scope finds the newest entry with the name, or none exactly when no entry has it |
| Sym.Find | sym.c:40-49 | an entry `lookup` returns, searching the scope and then each enclosing one, has the name asked for |
| Sym.NewScope | sym.c:19-24 | `scope` adds a new empty scope inside the given one and changes nothing else |
| Sym.Target | sym.c:26-31 | `install` opens a scope at the level when the current one is shallower, and otherwise keeps it |
| Sym.Installed | sym.c:26-38 | `install` adds exactly one entry and moves only the scope pointer it was given |
| Sym.Entered | sym.c:51-53 | `enterscope` raises the level by one and changes nothing else |
| Sym.Exited | sym.c:55-61 | `exitscope` lowers the level and leaves the innermost scope when it is at that level |
| Sym.Reset | sym.c:63-65 | `initscope` sets the level to GLOBAL and changes nothing else |
| Sym.WithOffset | decl.c:107-110 | only the entry's offset changes |
| Sym.WithDefined | decl.c:374 | only the entry's defined flag changes |
| Sym.AtFileScope | decl.c:182 | `identifiers = globals` and nothing else |
| Sym.FindOther | sym.c:26-49 | installing a name does not change the lookup of any other name |
| Sym.InstallFound | sym.c:26-49 | a name just installed is found in the scope it was installed in |
| Sym.Shadowing | sym.c:26-61 | a name installed in an inner scope is found there, and after the scope is left every lookup is as before |
| Sym.FindPrefix | sym.c:40-49 | adding entries and scopes does not change lookups from existing scopes that reach none of them |
| Sym.SymTab.constructor | sym.c:11-17 | the table starts in the initial state |
| Sym.SymTab.Scope | sym.c:19-24 | in-place `scope` is `NewScope` |
| Sym.SymTab.Install | sym.c:26-38 | in-place `install` is `Installed` |
| Sym.SymTab.Lookup | sym.c:40-49 | the loop over scopes returns `Find` |
| Sym.SymTab.ScanScope | sym.c:43-46 | the loop over entries returns `FirstNamed` |
| Sym.SymTab.EnterScope | sym.c:51-53 | in place `Entered` |
| Sym.SymTab.ExitScope | sym.c:55-61 | in place `Exited` |
| Sym.SymTab.InitScope | sym.c:63-65 | in place `Reset` |
| Sym.SymTab.SetOffset | decl.c:107-110 | in place `WithOffset` |
| Sym.SymTab.SetDefined | decl.c:374 | in place `WithDefined` |
| Sym.SymTab.UseFileScope | decl.c:182 | in place `AtFileScope` |
| Sym.SymTab.GetLevel | sym.c:67-69 | returns the level |
| CLex.NewToken | tokenizer.c:34-44 | a token records its kind, position and length, and its text is the input at that position |
| CLex.Lexeme | tokenizer.c:47-119 | a token read at a position starts there and spans its text in the input |
| CLex.Word | tokenizer.c:76-114 | a keyword, type name or identifier token spans its text |
| CLex.LexWellLexed | tokenizer.c:47-119 | the tokens lie in the input at increasing, non-overlapping positions, each holding the input text at its position, and exactly the last one is the end token |
| CLex.SpaceWellLexed | tokenizer.c:54-57 | skipping a space keeps the tokens well placed |
| CLex.TokenWellLexed | tokenizer.c:58-114 | reading a token keeps the list well placed |
| CLex.StrayCharacter | tokenizer.c:115 | a character that starts no token, at any position the loop arrives at from the start, makes tokenizing fail with "cannot tokenize" |
| CLex.FailureHasStray | tokenizer.c:115 | conversely, tokenizing fails only at such a position |
| CLex.SkipSpaces | tokenizer.c:54-57 | spaces do not change the tokens |
| CLex.KeywordBoundary | tokenizer.c:76-105 | each of `return`, `if`, `else`, `for`, `while` and `int` followed by a letter, digit or `_` is read as an identifier spanning the whole run, and otherwise as its keyword token (`int` as the type token) of the keyword's length |
| CLex.KeywordWord | tokenizer.c:76-114 | the same for the keyword and identifier branches alone |
| CLex.LexemeKinds | tokenizer.c:58-115 | the first character decides the token: a two-character operator or an operator character gives a symbol of that length, a digit a number spanning the digit run, a letter a keyword or an identifier, and anything else no token |
| CLex.Lex | tokenizer.c:47-119 | the reference token list of an input (its shape is proved by CLex.LexWellLexed) |
| CLex.NumberToken | tokenizer.c:68-75 | a digit starts a number token spanning the maximal digit run, with its decimal value |
| CLex.Tokenize | tokenizer.c:47-119 | the loop, reading each token by the branches of `CLex.Lexeme`, returns the reference token list or the same error |
| CTokens.LexedTokensValid | tokenizer.c:47-119 | every list the tokenizer returns ends with one end token, as the parsers need |
| CTokens.EqualConsumes | decl.c:14-35 | when `equal` holds for a symbol, `consume` of it succeeds |
| CTokens.PrefixConsumed | decl.c:28-35 | `consume(">")` accepts `>=` and `consume("=")` accepts `==`, where `equal` does not |
| CTokens.Equal | decl.c:14-18 | `equal`: the token is as long as the word and its text is the word; its kind is not looked at (used with CTokens.EqualConsumes) |
| CTokens.Consumes | decl.c:28-35 | the test of `consume`/`expect`: a symbol whose text begins with the operator (the prefix behaviour is CTokens.PrefixConsumed) |
| CExpr.TypeOf | expr.c:10-30 | numbers and calls are `int`; an undeclared name has no type |
| CExpr.Retype | expr.c:82-90 | a node of a different type kind gets the new type and keeps everything else; the same kind is kept |
| CExpr.Pointer | expr.c:92-97 | an array-typed node becomes a pointer to its element; any other node is unchanged; the result is never an array |
| CExpr.MulBy | expr.c:114-131 | scaling keeps the operand's type |
| CExpr.AddNode | expr.c:99-134 | `add_node` succeeds exactly on int+int, pointer+int or int+pointer (after decay); it scales the integer side of pointer arithmetic and swaps int+pointer |
| CExpr.PointeeOf | expr.c:306 | the `ptr_to` of a pointer is its pointee, of an array its element, of an integer nothing |
| CExpr.SizeOf | expr.c:263-274 | `sizeof` is the type's size, 0 for a product and an error for a quotient, and fails on untyped operands |
| CExpr.Typed | expr.c:275-290 | `*`, `&` and unary `-` read their operand's type: this succeeds exactly when the operand has one, and gives that type |
| CExpr.ParseExpr | expr.c:166-168 | `expr` consumes at least one token |
| CExpr.ParseAssign | expr.c:170-180 | `assign` consumes at least one token |
| CExpr.ParseEquality | expr.c:182-198 | `equality` consumes at least one token |
| CExpr.EqualityOp | expr.c:185-196 | only `==` and `!=` are recognised at the equality level |
| CExpr.ParseRelational | expr.c:199-222 | `relational` consumes at least one token |
| CExpr.RelationalOp | expr.c:202-220 | only the four comparisons are recognised at the relational level |
| CExpr.ParseAdd | expr.c:224-238 | `add` consumes at least one token |
| CExpr.AddOp | expr.c:227-236 | only `+` and `-` are recognised at the additive level |
| CExpr.ParseMul | expr.c:240-254 | `mul` consumes at least one token |
| CExpr.MulOp | expr.c:243-252 | only `*` and `/` are recognised at the multiplicative level |
| CExpr.EqualityTail | expr.c:182-198 | the `equality` loop never moves back or past the end marker |
| CExpr.RelationalTail | expr.c:199-222 | the `relational` loop never moves back or past the end marker |
| CExpr.AddTail | expr.c:224-238 | the `add` loop never moves back or past the end marker |
| CExpr.MulTail | expr.c:240-254 | the `mul` loop never moves back or past the end marker |
| CExpr.Compare | expr.c:202-220 | the comparison node: `>`/`>=` put the new operand on the left (used by CExprProps.RelationalTailStep) |
| CExpr.ParseUnary | expr.c:261-293 | `unary` consumes at least one token |
| CExpr.SizeofExpr | expr.c:263-274 | `sizeof` consumes at least one token |
| CExpr.DerefExpr | expr.c:275-278 | `*` consumes at least one token |
| CExpr.AddrExpr | expr.c:279-282 | `&` consumes at least one token |
| CExpr.NegExpr | expr.c:286-290 | unary `-` consumes at least one token |
| CExpr.ParsePostfix | expr.c:299-319 | `postfix` consumes at least one token |
| CExpr.Subscript | expr.c:302-306 | a subscript consumes at least its bracket |
| CExpr.CallSuffix | expr.c:307-314 | a call consumes at least its parenthesis, and what it leaves in `head` is a list of at most six arguments numbered from the count down |
| CExpr.ParsePrimary | expr.c:322-343 | `primary` consumes at least one token |
| CExpr.ArgList | expr.c:348-368 | the arguments come back last first, the k-th from the end numbered `depth + k`; an empty list consumes nothing and leaves `head` alone; in a deeper frame, and in the corrected top frame, the last entry is the argument at the cursor, parsed from its first token and numbered `depth + 1`; as written, the top frame returns exactly the list it leaves in `head` |
| CExpr.PostfixTail | expr.c:301-318 | the `postfix` loop never moves back or past the end marker, and if `head` held only a list `postfix` accepts, it still does |
| CExprProps.ExprCalls | expr.c:166-368 | every call in a parsed expression has at most 6 arguments, held last first and numbered n down to 1, and so do the calls nested in its arguments |
| CExprProps.AssignCalls | expr.c:170-180 | the same for `assign` |
| CExprProps.EqualityCalls | expr.c:182-198 | the same for `equality` |
| CExprProps.RelationalCalls | expr.c:199-222 | the same for `relational` |
| CExprProps.AddCalls | expr.c:224-238 | the same for `add` |
| CExprProps.MulCalls | expr.c:240-254 | the same for `mul` |
| CExprProps.UnaryCalls | expr.c:261-293 | the same for `unary` |
| CExprProps.PostfixCalls | expr.c:299-319 | the same for `postfix` |
| CExprProps.PrimaryCalls | expr.c:322-343 | the same for `primary` |
| CExprProps.ArgListCalls | expr.c:348-368 | every argument node `arg_list` returns holds only such well-formed calls |
| CExprProps.CallCalls | expr.c:307-314 | a call has at most 6 arguments (more is an error) |
| CExprProps.MulByCalls | expr.c:114-131 | scaling keeps calls well formed |
| CExprProps.AddNodeCalls | expr.c:99-134 | `add_node` keeps calls well formed |
| CExprProps.ScaleIsPointeeSize | expr.c:110-131 | for `int`, `char` and pointer pointees the scale is the pointee's size |
| CExprProps.RowScaleIsRowSize | expr.c:125-131 | for a two-dimensional `int` array the scale is the row size |
| CExprProps.CharRowMisscaled | expr.c:110-131 | a row of `char` is scaled by 4 times its length instead of its length |
| CExprProps.PointerToRowMisscaled | expr.c:110-131 | a pointer to a row of `int` is scaled by 4 instead of the row size |
| CExprProps.SubscriptType | expr.c:302-306 | `a[e]` and `e[a]` are typed as `a`'s element or pointee |
| CExprProps.EqualityTailStep | expr.c:182-198 | one turn of the `equality` loop makes the tree so far the left operand of a new `int` node, so a chain nests to the left |
| CExprProps.RelationalTailStep | expr.c:199-222 | one turn of the `relational` loop: `<`/`<=` make the tree so far the left operand of an `int` node, `>`/`>=` the right one |
| CExprProps.AddTailStep | expr.c:224-238 | one turn of the `add` loop hands the tree so far to `add_node` as its left operand and goes on with the result, or stops with its type error |
| CExprProps.MulTailStep | expr.c:240-254 | one turn of the `mul` loop makes the tree so far the left operand of a node typed as it |
| CExprProps.PostfixIsExpr | expr.c:166-254 | a postfix expression from a name or number followed by `,` or `)` is the whole expression, with the same `head` |
| CExprProps.NumberArgument | expr.c:339-341 | a number before `,` or `)` is an argument that leaves `head` alone |
| CExprProps.InnerCall | expr.c:307-314 | `g(1)` with `g` undeclared is the call of `g` with the one argument `1`, and leaves that list in `head` |
| CExprProps.NestedCallArgs | expr.c:348-368 | for `g(1), 2)`: as written the top frame returns `g`'s list, corrected it returns `[2, g(1)]`; both leave `g`'s list in `head` |
| CExprProps.NestedCallAsWritten | expr.c:348-368 | as written, `f(g(1), 2)` is a call of `f` whose only argument is `1` (Findings) |
| CExprProps.NestedCallCorrected | expr.c:348-368 | corrected, `f(g(1), 2)` is a call of `f` with the arguments `2` and `g(1)`, numbered 2 and 1 |
| CExprProps.FirstArgumentCallWins | expr.c:360-367 | as written, when the first of several arguments leaves a list in `head`, that list is what `arg_list` returns, whatever the other arguments are, and it has at most six entries |
| CDecltr.RoundUp | decl.c:108 | rounding up to 8 gives the next multiple of 8 |
| CDecltr.SetOffset | decl.c:107-110 | the stack grows by the entry's size rounded up to 8, and the entry's offset becomes the new stack size |
| CDecltr.InstalledKeeps | sym.c:26-38 | installing keeps the invariant that only non-function entries are marked defined |
| CDecltr.TypeSpcf | decl.c:230-242 | a type specifier is accepted exactly when it is `char` (giving `char`) or `int` (giving `int`); anything else is an error where the C code returns NULL |
| CDecltr.Apply | decl.c:254-268 | each node of the chain wraps the type: a pointer node gives `ptr(t)` (which dereferences to `t`), a function node a function returning `t`, an array node an array of n `t` |
| CDecltr.Decltr | decl.c:252-270 | the declared type is the chain applied to the base type, and the state only grows |
| CDecltr.Decltr1 | decl.c:278-317 | the cursor does not move back and the state only grows |
| CDecltr.Nested | decl.c:281-284 | a parenthesised declarator consumes at least its `(` and only grows the state |
| CDecltr.Pointer | decl.c:285-287 | a pointer declarator keeps the state sound |
| CDecltr.Suffixes | decl.c:293-316 | the suffix loop keeps the declared name and only grows the state |
| CDecltr.Suffix | decl.c:294-313 | a suffix is a function layer exactly when it starts with `(`; an array suffix changes nothing in the state |
| CDecltr.Parameters | decl.c:326-356 | every recorded parameter is an entry of the table |
| CDecltr.ParamList | decl.c:333-350 | the parameter list grows by at least one parameter and keeps the earlier ones |
| CDecltr.MoreParams | decl.c:346-350 | further parameters extend the list and keep the earlier ones |
| CDecltr.Param | decl.c:334-345 | a parameter is recorded as an entry of the table, and the state only grows |
| CDecltr.ParamDecl | decl.c:337-345 | a parameter declaration is recorded as an entry of the table, and the state only grows |
| CDecltr.DefinedKeeps | decl.c:374 | marking a non-function entry defined keeps the invariant |
| CDecltr.Adjusted | decl.c:360-364 | a parameter of array type becomes a pointer to the element, of function type a pointer to the function; no parameter has array or function type |
| CDecltr.DclParam | decl.c:358-376 | a parameter is entered exactly when it is named and not yet declared at this level; it gets the adjusted type, a stack offset and the defined flag |
| CDecltr.Decltn | decl.c:207-227 | a variable is entered exactly when it is named and not yet declared at this level, with the given type and level; at file scope a new name gets no stack slot |
| CDecltr.Declarations | decl.c:195-201 | the declarator loop consumes at least one token, keeps the level and only grows the state |
| CDecltr.NextDeclarator | decl.c:197-201 | without `,` the list ends at `;` with the state unchanged |
| CDecltr.LocalDecl | decl.c:193-201 | a local declaration advances and keeps the state sound |
| CDecltrProps.ArrayOfArrays | decl.c:252-317 | `x[m][n]` declares an array of m arrays of n base values |
| CDecltrProps.ArrayOfPointers | decl.c:252-317 | `*x[n]` declares an array of n pointers |
| CDecltrProps.PointerInside | decl.c:281-287 | inside parentheses `*f` is a pointer named `f` |
| CDecltrProps.FunctionPointerAsWritten | decl.c:281-284 | as written, `(*f)(...)` declares a plain pointer and stops before the parameter list |
| CDecltrProps.FunctionPointerCorrected | decl.c:281-314 | corrected, `(*f)()` declares a pointer to a function and consumes the parameter list |
| CDecltrProps.DecltnTwice | decl.c:207-227 | declaring the same name twice at one level is an error |
| CDecltrProps.CommaRedeclares | decl.c:194-199 | `int x, y` declares the first declarator's name again, so the second declarator is a redeclaration error |
| CDecltrProps.Unterminated | decl.c:194-201 | a declaration followed by neither `,` nor `;` is an error |
| CStmt.LeaveBlock | stmt.c:110-112 | the block's scope is left only at LOCAL level or deeper |
| CStmt.Enter | stmt.c:98 | `enterscope` raises the level |
| CStmt.OptDecl | stmt.c:99-101 | without a type name nothing is declared |
| CStmt.ParseStmt | stmt.c:72-84 | a statement consumes at least one token and the state only grows |
| CStmt.ExprStatement | stmt.c:86-94 | an expression statement consumes at least one token, builds an expression-statement node and leaves the state unchanged |
| CStmt.CmpStmt | stmt.c:96-115 | a compound statement is a block of at least one statement (an empty block holds a null statement), and it consumes a leading `{` |
| CStmt.BlockBody | stmt.c:99-115 | the body is a nonempty block and the level comes back down by at most one |
| CStmt.StmtList | stmt.c:118-125 | the statement list is empty exactly when it consumes nothing |
| CStmt.SelectStmt | stmt.c:128-142 | an `if` statement parses into an if node |
| CStmt.IfArms | stmt.c:131-141 | the if node keeps its condition |
| CStmt.ElseArm | stmt.c:135-141 | without `else` the if node has no else branch and nothing is consumed |
| CStmt.Clause | stmt.c:158-169 | a clause whose closing token comes first is omitted |
| CStmt.IterStmt | stmt.c:145-175 | `while` gives a while node and `for` a for node |
| CStmt.WhileLoop | stmt.c:146-152 | `while (e) s` gives a while node |
| CStmt.ForLoop | stmt.c:153-173 | `for (...) s` gives a for node |
| CStmt.JumpStmt | stmt.c:177-188 | `return e;` gives a return node and keeps the state |
| CStmt.ReturnType | decl.c:386 | the return type of a function type |
| CStmt.DefnError | decl.c:387-401 | a definition is rejected exactly when it has more than 6 parameters, no name, a `main` with parameters not returning `int`, or is a redefinition |
| CStmt.FuncDefn | decl.c:379-414 | a definition has the declarator's name, a block body, the given parameters and their count (at most 6) |
| CStmt.ExDecltn | decl.c:172-203 | a function definition records the stack size at its end |
| CStmt.FileDecltn | decl.c:186-191 | at file scope a definition is returned exactly when `{` follows the declarator and the body parses |
| CStmt.Reverse | decl.c:163-165 | `flist[i] = temp[n-i-1]`: the vector reversed |
| CStmt.TrnsUnit | decl.c:151-170 | `trns_unit` succeeds exactly when every external declaration does, and returns as many functions as it counts |
| CStmt.Definitions | decl.c:154-159 | the definitions from a position to the end of input (proved well formed by CStmtProps.DefinitionsCompiled) |
| CStmt.Redefines | decl.c:401 | the name is found and is a function already marked defined (never true, by CStmtProps.NoRedefinition) |
| CStmt.NonAnsi | decl.c:396 | the message for a `main` with parameters not returning `int`, with the name in place of the `%s` the C code leaves without an argument |
| CStmtProps.StmtCalls | stmt.c:72-84 | every parsed statement holds only well-formed calls |
| CStmtProps.ExprStatementCalls | stmt.c:86-94 | the same for expression statements |
| CStmtProps.CmpCalls | stmt.c:96-115 | the same for compound statements |
| CStmtProps.BlockBodyCalls | stmt.c:99-115 | the same for block bodies |
| CStmtProps.StmtListCalls | stmt.c:118-125 | the same for statement lists |
| CStmtProps.SelectCalls | stmt.c:128-142 | the same for `if` |
| CStmtProps.IfArmsCalls | stmt.c:131-141 | the same for the arms of `if` |
| CStmtProps.ElseArmCalls | stmt.c:135-141 | the same for `else` |
| CStmtProps.ClauseCalls | stmt.c:152-168 | the same for `for` clauses |
| CStmtProps.IterCalls | stmt.c:145-175 | the same for loops |
| CStmtProps.WhileCalls | stmt.c:146-152 | the same for `while` |
| CStmtProps.ForCalls | stmt.c:153-173 | the same for `for` |
| CStmtProps.JumpCalls | stmt.c:177-188 | the same for `return` |
| CStmtProps.FuncDefnCompiled | decl.c:379-414 | a compiled function has a block body whose calls are well formed |
| CStmtProps.ExDecltnCompiled | decl.c:172-203 | the same for each external declaration |
| CStmtProps.DefinitionsCompiled | decl.c:154-159 | the same for every function of the translation unit |
| CStmtProps.TrnsUnitCompiled | decl.c:151-170 | every function `trns_unit` returns is compiled well |
| CStmtProps.NoRedefinition | decl.c:400-401 | no function entry is ever marked defined, so the redefinition check never fires |
| CStmtProps.EmptyBlockEndsList | stmt.c:102-106 | as written, an empty block `{}` leaves its `}`, which ends the enclosing statement list |
| CStmtProps.EmptyBlockCorrected | stmt.c:102-106 | corrected, the empty block consumes its `}` and the list goes on |
| CStmtProps.BodyClosed | stmt.c:107-114 | corrected, a block body ends with `}` |
| CStmtProps.BlockClosed | stmt.c:96-115 | corrected, a compound statement ends with `}` |
| CStmtProps.NestedBodyAsWritten | decl.c:383 | as written, `{{...}}` as a function body: the outer `{` is eaten and the inner block becomes the body |
| CStmtProps.NestedBodyCorrected | decl.c:383 | corrected, the inner block is the body's first statement, one scope deeper |
| CStmtProps.FunctionPointerRejected | decl.c:172-203 | as written, a declaration of a function pointer is rejected |
| CParser.Parser.constructor | decl.c:11 | the parser starts at the first token with the initial symbol table and stack size 0 |
| CParser.Parser.Consume | decl.c:28-35 | advances exactly when the token is a symbol starting with the operator; the state is unchanged |
| CParser.Parser.ConsumeToken | decl.c:86-93 | advances exactly when the token has the kind |
| CParser.Parser.Expect | decl.c:39-45 | advances on the operator and otherwise fails with "expected" |
| CParser.Parser.ExpectNumber | decl.c:49-57 | returns a number's value and advances, or fails |
| CParser.Parser.Expr | expr.c:166-168 | the method agrees with the reference `expr` |
| CParser.Parser.Assign | expr.c:170-180 | agrees with the reference `assign` |
| CParser.Parser.Equality | expr.c:182-198 | the operator loop agrees with the reference |
| CParser.Parser.EqualityOperator | expr.c:185-196 | recognises and consumes `==`/`!=` as the reference does |
| CParser.Parser.Relational | expr.c:199-222 | the operator loop agrees with the reference |
| CParser.Parser.RelationalOperator | expr.c:202-220 | recognises and consumes a comparison as the reference does |
| CParser.Parser.Add | expr.c:224-238 | the operator loop agrees with the reference |
| CParser.Parser.AddOperator | expr.c:227-236 | recognises and consumes `+`/`-` as the reference does |
| CParser.Parser.Mul | expr.c:240-254 | the operator loop agrees with the reference |
| CParser.Parser.MulOperator | expr.c:243-252 | recognises and consumes `*`/`/` as the reference does |
| CParser.Parser.Unary | expr.c:261-293 | agrees with the reference `unary` |
| CParser.Parser.SizeofExpr | expr.c:263-274 | agrees with the reference `sizeof` |
| CParser.Parser.DerefExpr | expr.c:275-278 | agrees with the reference `*` |
| CParser.Parser.AddrExpr | expr.c:279-282 | agrees with the reference `&` |
| CParser.Parser.NegExpr | expr.c:286-290 | agrees with the reference unary `-` |
| CParser.Parser.Postfix | expr.c:299-319 | the postfix loop agrees with the reference |
| CParser.Parser.Subscript | expr.c:302-306 | agrees with the reference subscript |
| CParser.Parser.CallSuffix | expr.c:307-314 | agrees with the reference call |
| CParser.Parser.Primary | expr.c:322-343 | agrees with the reference `primary` |
| CParser.Parser.ArgList | expr.c:348-368 | agrees with the reference argument list, each argument parsed a second time from its first token, and leaves in the `head` field what the reference says |
| CParser.Parser.FrameEnd | expr.c:354-367 | a deeper frame returns its own list; the top frame returns `head.next`, which is its own list only if no later parse wrote `head` (as written), or its own list (corrected) |
| CParser.Parser.Reparse | expr.c:354 | `expr(&tok)` on a private cursor gives the expression's tree, leaves the parser's cursor alone, and leaves in `head` what that parse writes |
| CParser.Parser.SetOffset | decl.c:107-110 | in place, the reference `set_offset` |
| CParser.Parser.TypeSpcf | decl.c:230-242 | agrees with the reference type specifier |
| CParser.Parser.Decltr | decl.c:252-270 | agrees with the reference declarator: type, name, parameters, cursor and state |
| CParser.Parser.Decltr1 | decl.c:278-317 | agrees with the reference `decltr1` |
| CParser.Parser.Nested | decl.c:281-285 | agrees with the reference parenthesised declarator |
| CParser.Parser.Pointer | decl.c:285-287 | agrees with the reference pointer declarator |
| CParser.Parser.Suffixes | decl.c:292-316 | the suffix loop agrees with the reference |
| CParser.Parser.Suffix | decl.c:294-313 | agrees with the reference suffix |
| CParser.Parser.Parameters | decl.c:326-356 | agrees with the reference parameter list |
| CParser.Parser.ParamList | decl.c:326-356 | the parameter loop agrees with the reference |
| CParser.Parser.Param | decl.c:330-346 | agrees with the reference parameter |
| CParser.Parser.ParamDecl | decl.c:330-346 | agrees with the reference parameter declaration |
| CParser.Parser.DclParam | decl.c:358-376 | agrees with the reference `dclparam` |
| CParser.Parser.Decltn | decl.c:207-227 | agrees with the reference `decltn` |
| CParser.Parser.Declarations | decl.c:194-201 | the declarator loop agrees with the reference |
| CParser.Parser.LocalDecl | decl.c:192-201 | agrees with the reference local declaration |
| CParser.Parser.ExDecltn | decl.c:172-203 | agrees with the reference `ex_decltn` |
| CParser.Parser.FileExDecltn | decl.c:177-191 | agrees with the reference `ex_decltn` at file scope |
| CParser.Parser.FileDecltn | decl.c:186-201 | agrees with the reference definition-or-declaration choice |
| CParser.Parser.DefnCheck | decl.c:386-401 | the counting loop and the checks report exactly the reference error, and otherwise the parameter count |
| CParser.Parser.FuncDefn | decl.c:379-414 | agrees with the reference `func_defn` |
| CParser.Parser.Stmt | stmt.c:72-84 | agrees with the reference `stmt` |
| CParser.Parser.ExprStatement | stmt.c:86-94 | agrees with the reference expression statement |
| CParser.Parser.CmpStmt | stmt.c:96-115 | agrees with the reference compound statement |
| CParser.Parser.BlockBody | stmt.c:99-115 | agrees with the reference block body |
| CParser.Parser.StmtLst | stmt.c:118-125 | agrees with the reference statement list |
| CParser.Parser.SelectStmt | stmt.c:128-142 | agrees with the reference `if` |
| CParser.Parser.IfArms | stmt.c:131-141 | agrees with the reference arms |
| CParser.Parser.ElseArm | stmt.c:135-141 | agrees with the reference `else` |
| CParser.Parser.Clause | stmt.c:152-168 | agrees with the reference `for` clause |
| CParser.Parser.IterStmt | stmt.c:145-175 | agrees with the reference loops |
| CParser.Parser.WhileLoop | stmt.c:146-152 | agrees with the reference `while` |
| CParser.Parser.ForLoop | stmt.c:153-173 | agrees with the reference `for` |
| CParser.Parser.JumpStmt | stmt.c:177-188 | agrees with the reference `return` |
| CParser.Parser.NextDefinition | decl.c:156-158 | one external declaration after `initscope` is the next step of the reference translation unit |
| CParser.Parser.Pass | decl.c:154-159 | one pass of the `trns_unit` loop appends the definition, keeping "collected so far + rest = whole unit" |
| CParser.Parser.LastFirst | decl.c:163-165 | the copy loop builds the vector reversed |
| CParser.Parser.Collected | decl.c:160-169 | the list becomes the functions in reverse order with their count |
| CParser.Parser.TrnsUnit | decl.c:151-170 | `trns_unit` returns exactly the reference translation unit: the defined functions, last first, and their number, or the first error |

## Left out

- Error reporting: `error`, `error_at` and `error_tok` print a message with
  the input position and exit. Here the message is returned as an `Err`; the
  position and the exit are not modelled.
- The drivers (`main` of tinycc.c apart from the code it prints, main.c),
  reading the input file and `printf`. The code generators produce a
  sequence of abstract instructions rather than text.
- 64-bit machine arithmetic: values are unbounded integers, `rsp` is an
  abstract stack, and `rdx` is not modelled.
- codegen.c's `ND_FUNCTION` case (`call`): the statement compiler never
  builds such a node.
- The `TK_STR` branch of `primary` and `new_node_str`: the tokenizer never
  makes a string token.
- `get_return_ty` is not part of this model. `CStmt.ReturnType` stands for
  it: a function type's return type, and any other type itself.
- `exitparams`: its only call is commented out.
- `new_type` and `decltn_spcf` are folded into `CDecltr.TypeSpcf`.
- Pointers and heap records:
  - Nodes, types and functions are values.
  - Symbol-table entries and scopes are records in sequences, and a pointer
    is an index.
  - The parameter vector `Var **` is a sequence.
  - `calloc` and leaks are not modelled.
- CExpr.ArgList, CParser.Parser.ArgList: the global `head` node is modelled
  as the list its `next` field points at (`CExpr.Head`, the `head` field of
  `CParser.Parser`), threaded through every expression parse. Its `next` is
  what the top frame returns (expr.c:367). The model tracks which call last
  wrote it, which is enough for `f(g(1), 2)` (Findings). It does not model
  the node itself: `head.next` and the last argument are one node in C, so
  the model's `None` stands for "still the last argument". The second parse
  of each argument is kept (`CParser.Parser.Reparse`).
- CStmt.BlockBody, CParser.Parser.BlockBody: a symbol token that begins
  with `}` but is longer than one character reaches the `expected '}'`
  error when the statement list before it is empty. There the C code builds
  a block with a NULL body. The tokenizer makes no such token: every `}`
  token has length 1.
- `new_node_var` (expr.c:19-30) has a branch for a global variable. Nothing
  sets a variable's `global` field, so that branch is never taken; the
  model builds a local-variable node for every declared name.
- CParser.Parser.IterStmt: it tests the `while` keyword first and the `for`
  keyword second, then expects `(` once. The C code expects `(` in each
  branch. The accepted inputs, results and errors are the same.
- StmtParse.Front.Tokenize: an identifier is entered in the locals at the
  end of its loop turn, after its token is read, not inside the identifier
  branch. Nothing reads the locals in between, so the result is the same.
- CParser.Parser.Declarations: the `for (;;)` loop of `ex_decltn` is
  rotated, so the first declarator is declared before the loop.
- CParser.Parser.TrnsUnit: `flist` is a sequence rather than a `calloc`'d
  array. The list is walked into a vector by `ltov` as in the source.
- Sym.SymTab.ExitScope: requires the level to be above GLOBAL. The `assert`
  in `exitscope` also admits GLOBAL itself, but its only callers (the end of
  a compound statement) leave a scope only at LOCAL or deeper.
- The tokenizer of the typed front end makes no `sizeof` token and no `[`
  or `]` token. So the `sizeof` branch of `unary`, the subscript branch of
  `postfix` and the array suffix of `decltr1` are modelled, but only token
  lists that the tokenizer does not make reach them. It makes no type token for `char`
  either: `char` is an identifier token. `equal` compares only the length
  and the text, so `char c;` at file scope does reach the `char` case of
  `type_spcf`; a block declares only after a type token, so there `char c;`
  is an expression statement.
- CalcParse.ParseEquality, CalcParse.ParseRelational, CExpr.ParseEquality,
  CExpr.ParseRelational, CExpr.ParseAdd and CExpr.ParseMul: their own
  contracts state only that they consume tokens and stay inside the list.
  How their loops nest a chain is stated one turn at a time by the step
  lemmas (`CalcParseProps.EqualityTailStep`,
  `CalcParseProps.RelationalTailStep`, `CExprProps.EqualityTailStep`,
  `CExprProps.RelationalTailStep`, `CExprProps.AddTailStep`,
  `CExprProps.MulTailStep`). Only the calculator's `+ - * /` levels also
  have a printed-tree round trip.
- `new_token` copies the token text into a one-byte buffer. Memory is not
  modelled, so the token's text is taken to be the full copy.
- An operand without a type (an undeclared name) makes the C code read
  through a NULL `type` pointer for `*`, unary `-`, `sizeof` and `add_node`.
  The model gives the error `CExpr.Untyped` instead (`CExpr.Typed`,
  `CExpr.SizeOf`, `CExpr.AddNode`).
- CExpr.AddrExpr and CParser.Parser.AddrExpr: `&` of an operand without a
  type does not read through NULL: the C code builds `ptr(NULL)`, a pointer
  of size 8 with no pointee. The model's types have no absent pointee, so
  these give `CExpr.Untyped` where the C code builds the node.
- CDecltr.TypeSpcf, CStmt.ExDecltn, CParser.Parser.TypeSpcf,
  CParser.Parser.ExDecltn and CParser.Parser.FileExDecltn: `type_spcf` of a
  token that is neither `char` nor `int` returns NULL, and `ex_decltn` goes
  on with a NULL base type. The C code so accepts `main(){ return 0; }` and
  `x;` at file scope, giving a function type with no return type or a
  global with no type. The model's types have no absent type, so these
  give the error `CDecltr.NoTypeSpecifier`.
- `type_size` of a function type reaches no case of its `switch` and
  returns an undefined value; `CExpr.SizeOf` gives the error `CExpr.NoSize`.
- An argument list ending in `,` makes `arg_list` link onto a NULL `cdr`;
  `CExpr.ArgList` gives the error `CExpr.MissingArgument`.
- A declarator without a name passes a NULL name to `lookup`, which hands it
  to `strcmp`; the model gives the error `CDecltr.NoIdentifier`.
- StmtGen.GenBlock, StmtGenProps.NestedBlockValue: the model holds a block's
  statements as a sequence of its own. codegen.c (codegen.c:127-137) reaches
  a block's statements through the block's own `next` field (tinycc.h:93),
  the same field that links every node to its successor. So any walk that
  reaches a block, whether the top-level loop (codegen.c:198-202) or an
  enclosing block's loop, goes on into the block's statements and emits them
  a second time. A chain such as `{1; {2;} 3;}` cannot be built at all. The
  parser never builds a block, so only the generator meets this case.
  `NestedBlockValue` states the value of the tree form, which codegen.c cannot
  hold.
- StmtGen.GenProgram: the three directive lines `.intel_syntax noprefix`,
  `.global main` and `main:` that `codegen` prints before the prologue
  (codegen.c:189-191) are not modelled. `Prologue` starts at `push rbp`.
- StmtParse.Front.Program: `program` stores the statements in the fixed
  array `code[100]` (tinycc.h:123) without a bound check, so a program of
  100 statements or more overruns it. The model's sequence has no bound;
  `StmtParse.ParseProgram` bounds the count only by the number of tokens.
- Helpers that are not part of this model are taken as follows:
  - `find_var` (expr.c:332) is a lookup of the token's text in the
    `identifiers` scope chain (`Sym.Find` in `CExpr.ParsePrimary`);
  - the zeroed type record `calloc` gives a number, a call or a comparison
    node is read as `int` (`CExpr.TypeOf`), since `INT` is taken to be the
    first member of the type enumeration;
  - `isint`, `iscint`, `isptr`, `isarray` and `isfunc` test the type's tag
    (`Types.IsInt` and the predicates beside it);
  - `array()` and `func()` build an array of `n` elements and a function
    returning the type; type.c:45-47 has `array` commented out. The
    record `func()` makes is taken to leave `size` zero, so a function's
    stored size is 0 (`Types.StoredSize`);
  - the scope levels `GLOBAL`, `PARAM` and `LOCAL` are taken as 3, 4 and
    5 (`Sym.GLOBAL`); only their order matters to the model.

## Findings

| source | as written | input that shows it | evidently intended | confidence | as-written member | corrected member |
|---|---|---|---|---|---|---|
| parse.c:82-92 | `update_locals` links the new local at `locals.next`, replacing the one there | `a=1;b=2;c=3;` leaves only `c`; `a` and `b` both get offset 0 and share one cell | append the new local at the end of the list | high, not executed | StmtLex.AsWrittenOffsetsCollide | StmtLex.DistinctOffsets |
| stmt.c:102-106 | an empty block returns without consuming its `}` | `int main(){ 1; {} return 0; }`: the inner `}` ends the function's statement list | the empty block consumes its `}` | high, not executed | CStmtProps.EmptyBlockEndsList | CStmtProps.EmptyBlockCorrected |
| decl.c:383 | `func_defn` consumes the body's `{` before calling `cmp_stmt`, which consumes a `{` only if present | `int main(){ {x;} }`: the inner block is taken as the function body | leave the `{` to `cmp_stmt`, so the inner block is the first statement | high, not executed | CStmtProps.NestedBodyAsWritten | CStmtProps.NestedBodyCorrected |
| expr.c:354-367 | the last argument sets `head.next`, and the second parses of the other arguments come after it; a call among them overwrites `head.next`, and the top frame returns `head.next` | `f(g(1), 2)`: `f` gets the argument list `[1]` of `g` | return the list the frame built, `[2, g(1)]` | high, not executed | CExprProps.NestedCallAsWritten | CExprProps.NestedCallCorrected |
| decl.c:281-284 | a parenthesised declarator returns before reading the suffixes that follow it | `int (*f)(int);` declares a plain pointer and then fails at `(` | read the suffixes after `)`, giving a pointer to a function | high, not executed | CDecltrProps.FunctionPointerAsWritten | CDecltrProps.FunctionPointerCorrected |
