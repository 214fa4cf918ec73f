/// Statements and function definitions of the typed front end (stmt.c, and
/// `trns_unit`, `ex_decltn` and `func_defn` of decl.c): statements are
/// parsed against the declaration state, a compound statement opens and
/// closes a scope, and a translation unit is the list of function
/// definitions in reverse order of appearance. Each function takes the
/// dialect: the source as written or with its defects corrected.

module CStmt {
  import opened Util
  import opened Types
  import opened Sym
  import opened CLex
  import opened CTokens
  import opened CExpr
  import opened CDecltr

  /** A compiled function: its body, the entries of the scope that is
      innermost once the body is closed, its parameter vector and count, the
      file-scope entries, and the stack size. */
  datatype FuncDef = FuncDef(name: string, code: Node, locals: seq<nat>, params: Option<seq<nat>>,
                             nparams: nat, globals: seq<nat>, stackSize: nat)

  /** What `trns_unit` returns: the functions and their number. */
  datatype Code = Code(functions: seq<FuncDef>, n: nat)

  const TooManyParams := "the number of parameters > 6"

  function NonAnsi(name: string): string { "'" + name + "()' is a non-ANSI definition" }

  function Redefinition(name: string): string { "redefinition of " + name }

  type SParsed = Result<(Node, nat, St)>

  /** The end of a compound statement: the scope is left when the level is
      at least that of a function body. */
  function LeaveBlock(st: St): (r: St)
    requires Sound(st)
    ensures Sound(r) && r.stack == st.stack && r.tab.vars == st.tab.vars
    ensures st.tab.level >= LOCAL ==> r.tab.level == st.tab.level - 1
    ensures st.tab.level < LOCAL ==> r == st
  {
    if st.tab.level >= LOCAL then St(Exited(st.tab), st.stack) else st
  }

  /** The state with one more scope level, as `enterscope` leaves it. */
  function Enter(st: St): (r: St)
    requires Sound(st)
    ensures Sound(r) && r.tab.level == st.tab.level + 1 && r.stack == st.stack && r.tab.vars == st.tab.vars
  {
    St(Entered(st.tab), st.stack)
  }

  /** The optional declaration `cmp_stmt` and `stmt_lst` parse before a
      statement when a type name comes next. */
  function OptDecl(ts: seq<Token>, i: nat, st: St, d: Dialect): (r: Result<(St, nat)>)
    requires ValidTokens(ts) && i < |ts| && Sound(st)
    ensures r.Ok? ==> i <= r.value.1 < |ts| && Sound(r.value.0) && Grows(st, r.value.0)
    ensures ts[i].kind != TypeName ==> r == Ok((st, i))
  {
    if ts[i].kind == TypeName then LocalDecl(ts, i, st, d) else Ok((st, i))
  }

  /** `stmt`: dispatch on the first token. */
  function ParseStmt(ts: seq<Token>, i: nat, st: St, d: Dialect): (r: SParsed)
    requires ValidTokens(ts) && i < |ts| && Sound(st)
    ensures r.Ok? ==> i < r.value.1 < |ts| && Sound(r.value.2) && Grows(st, r.value.2)
    decreases |ts| - i, 2
  {
    if Equal(ts[i], "{") then
      EqualConsumes(ts, i, "{");
      CmpStmt(ts, i, st, d)
    else if ts[i].kind == If then SelectStmt(ts, i, st, d)
    else if ts[i].kind == Return then JumpStmt(ts, i, st, d)
    else if ts[i].kind == While || ts[i].kind == For then IterStmt(ts, i, st, d)
    else ExprStatement(ts, i, st, d)
  }

  /** `expr_stmt`: `;` alone is an empty statement; otherwise an expression
      and `;`. */
  function ExprStatement(ts: seq<Token>, i: nat, st: St, d: Dialect): (r: SParsed)
    requires ValidTokens(ts) && i < |ts| && Sound(st)
    ensures r.Ok? ==> i < r.value.1 < |ts| && r.value.2 == st
    ensures r.Ok? ==> r.value.0.ExprStmt?
  {
    if Consumes(ts[i], ";") then Ok((ExprStmt(NullStmt), i + 1, st))
    else
      var e :- ParseExpr(ts, i, st.tab, d);
      if !Consumes(ts[e.1], ";") then Err(ExpectMsg(";"))
      else Ok((ExprStmt(e.0), e.1 + 1, st))
  }

  /** `cmp_stmt`: an optional `{`, a new scope level, an optional
      declaration, then the block's contents. */
  function CmpStmt(ts: seq<Token>, i: nat, st: St, d: Dialect): (r: SParsed)
    requires ValidTokens(ts) && i < |ts| && Sound(st)
    ensures r.Ok? ==> i <= r.value.1 < |ts| && Sound(r.value.2) && Grows(st, r.value.2)
    ensures r.Ok? && Consumes(ts[i], "{") ==> i < r.value.1
    ensures r.Ok? ==> r.value.0.Block? && |r.value.0.stmts| > 0
    decreases |ts| - i, if Consumes(ts[i], "{") then 1 else 5
  {
    var j := if Consumes(ts[i], "{") then i + 1 else i;
    var s1 :- OptDecl(ts, j, Enter(st), d);
    BlockBody(ts, s1.1, s1.0, d)
  }

  /** The rest of `cmp_stmt`: `}` at once gives a block holding one empty
      statement (as written, that `}` is not consumed); otherwise a
      statement list and `}`. The scope is left at the end. */
  function BlockBody(ts: seq<Token>, i: nat, st: St, d: Dialect): (r: SParsed)
    requires ValidTokens(ts) && i < |ts| && Sound(st)
    ensures r.Ok? ==> i <= r.value.1 < |ts| && Sound(r.value.2)
    ensures r.Ok? ==> r.value.2.tab.level + 1 >= st.tab.level && r.value.2.stack >= st.stack
    ensures r.Ok? ==> |r.value.2.tab.vars| >= |st.tab.vars|
    ensures r.Ok? ==> r.value.0.Block? && |r.value.0.stmts| > 0
    decreases |ts| - i, 4
  {
    if Equal(ts[i], "}") then
      Ok((Block([NullStmt]), if d == AsWritten then i else i + 1, LeaveBlock(st)))
    else
      var body :- StmtList(ts, i, st, d);
      if |body.0| == 0 || !Consumes(ts[body.1], "}") then Err(ExpectMsg("}"))
      else Ok((Block(body.0), body.1 + 1, LeaveBlock(body.2)))
  }

  /** `stmt_lst`: statements, each perhaps preceded by a declaration, up to
      the end of input or a token beginning with `}`. */
  function StmtList(ts: seq<Token>, i: nat, st: St, d: Dialect): (r: Result<(seq<Node>, nat, St)>)
    requires ValidTokens(ts) && i < |ts| && Sound(st)
    ensures r.Ok? ==> i <= r.value.1 < |ts| && Sound(r.value.2) && Grows(st, r.value.2)
    ensures r.Ok? ==> (|r.value.0| == 0 <==> r.value.1 == i)
    decreases |ts| - i, 3
  {
    if ts[i].kind == Eof || StartsWith(ts[i].text, "}") then Ok(([], i, st))
    else
      var s1 :- OptDecl(ts, i, st, d);
      var s :- ParseStmt(ts, s1.1, s1.0, d);
      var rest :- StmtList(ts, s.1, s.2, d);
      Ok(([s.0] + rest.0, rest.1, rest.2))
  }

  /** `select_stmt` after its `if` keyword: `(` condition `)` statement,
      and an `else` branch when the keyword follows. */
  function SelectStmt(ts: seq<Token>, i: nat, st: St, d: Dialect): (r: SParsed)
    requires ValidTokens(ts) && i < |ts| && Sound(st) && ts[i].kind == If
    ensures r.Ok? ==> i < r.value.1 < |ts| && Sound(r.value.2) && Grows(st, r.value.2)
    ensures r.Ok? ==> r.value.0.IfStmt?
    decreases |ts| - i, 1
  {
    if !Consumes(ts[i + 1], "(") then Err(ExpectMsg("("))
    else
      var c :- ParseExpr(ts, i + 2, st.tab, d);
      if !Consumes(ts[c.1], ")") then Err(ExpectMsg(")"))
      else IfArms(ts, c.1 + 1, st, c.0, d)
  }

  /** The statement of an `if` and, when `else` follows it, the statement
      after `else`. */
  function IfArms(ts: seq<Token>, i: nat, st: St, cond: Node, d: Dialect): (r: SParsed)
    requires ValidTokens(ts) && i < |ts| && Sound(st)
    ensures r.Ok? ==> i < r.value.1 < |ts| && Sound(r.value.2) && Grows(st, r.value.2)
    ensures r.Ok? ==> r.value.0.IfStmt? && r.value.0.cond == cond
    decreases |ts| - i, 3
  {
    var body :- ParseStmt(ts, i, st, d);
    ElseArm(ts, body.1, body.2, cond, body.0, d)
  }

  /** After the statement of an `if`: an `else` and its statement, or
      nothing. */
  function ElseArm(ts: seq<Token>, i: nat, st: St, cond: Node, body: Node, d: Dialect): (r: SParsed)
    requires ValidTokens(ts) && i < |ts| && Sound(st)
    ensures r.Ok? ==> i <= r.value.1 < |ts| && Sound(r.value.2) && Grows(st, r.value.2)
    ensures r.Ok? ==> r.value.0.IfStmt? && r.value.0.cond == cond && r.value.0.body == body
    ensures r.Ok? && ts[i].kind != Else ==> r.value == (IfStmt(cond, body, None), i, st)
    decreases |ts| - i, 0
  {
    if ts[i].kind == Else then
      var els :- ParseStmt(ts, i + 1, st, d);
      Ok((IfStmt(cond, body, Some(els.0)), els.1, els.2))
    else Ok((IfStmt(cond, body, None), i, st))
  }

  /** One clause of a `for` header: omitted when `close` comes at once,
      otherwise an expression followed by `close`. */
  function Clause(ts: seq<Token>, i: nat, tab: Table, d: Dialect, close: string): (r: Result<(Option<Node>, nat)>)
    requires ValidTokens(ts) && i < |ts| && WellFormed(tab)
    ensures r.Ok? ==> i < r.value.1 < |ts|
    ensures Consumes(ts[i], close) ==> r == Ok((None, i + 1))
  {
    if Consumes(ts[i], close) then Ok((None, i + 1))
    else
      var e :- ParseExpr(ts, i, tab, d);
      if !Consumes(ts[e.1], close) then Err(ExpectMsg(close)) else Ok((Some(e.0), e.1 + 1))
  }

  /** `iter_stmt` after its `while` or `for` keyword: `(`, then the rest
      of a `while` or of a `for`. */
  function IterStmt(ts: seq<Token>, i: nat, st: St, d: Dialect): (r: SParsed)
    requires ValidTokens(ts) && i < |ts| && Sound(st) && (ts[i].kind == While || ts[i].kind == For)
    ensures r.Ok? ==> i < r.value.1 < |ts| && Sound(r.value.2) && Grows(st, r.value.2)
    ensures r.Ok? ==> (r.value.0.WhileStmt? <==> ts[i].kind == While) && (r.value.0.ForStmt? <==> ts[i].kind == For)
    decreases |ts| - i, 1
  {
    if !Consumes(ts[i + 1], "(") then Err(ExpectMsg("("))
    else if ts[i].kind == While then WhileLoop(ts, i + 2, st, d)
    else ForLoop(ts, i + 2, st, d)
  }

  /** A `while` after its `(`: the condition, `)` and the body. */
  function WhileLoop(ts: seq<Token>, i: nat, st: St, d: Dialect): (r: SParsed)
    requires ValidTokens(ts) && i < |ts| && Sound(st)
    ensures r.Ok? ==> i < r.value.1 < |ts| && Sound(r.value.2) && Grows(st, r.value.2)
    ensures r.Ok? ==> r.value.0.WhileStmt?
    decreases |ts| - i, 0
  {
    var c :- ParseExpr(ts, i, st.tab, d);
    if !Consumes(ts[c.1], ")") then Err(ExpectMsg(")"))
    else
      var body :- ParseStmt(ts, c.1 + 1, st, d);
      Ok((WhileStmt(c.0, body.0), body.1, body.2))
  }

  /** A `for` after its `(`: the three clauses and the body. The
      initialisation clause is wrapped in an expression statement. */
  function ForLoop(ts: seq<Token>, i: nat, st: St, d: Dialect): (r: SParsed)
    requires ValidTokens(ts) && i < |ts| && Sound(st)
    ensures r.Ok? ==> i < r.value.1 < |ts| && Sound(r.value.2) && Grows(st, r.value.2)
    ensures r.Ok? ==> r.value.0.ForStmt?
    decreases |ts| - i, 0
  {
    var init :- Clause(ts, i, st.tab, d, ";");
    var cond :- Clause(ts, init.1, st.tab, d, ";");
    var step :- Clause(ts, cond.1, st.tab, d, ")");
    var body :- ParseStmt(ts, step.1, st, d);
    var init' := if init.0.Some? then Some(ExprStmt(init.0.value)) else None;
    Ok((ForStmt(init', cond.0, step.0, body.0), body.1, body.2))
  }

  /** `jump_stmt` after its `return` keyword: an optional expression, then
      `;`. */
  function JumpStmt(ts: seq<Token>, i: nat, st: St, d: Dialect): (r: SParsed)
    requires ValidTokens(ts) && i < |ts| && Sound(st) && ts[i].kind == Return
    ensures r.Ok? ==> i < r.value.1 < |ts| && r.value.2 == st
    ensures r.Ok? ==> r.value.0.ReturnStmt?
  {
    if Consumes(ts[i + 1], ";") then Ok((ReturnStmt(NullStmt), i + 2, st))
    else
      var e :- ParseExpr(ts, i + 1, st.tab, d);
      if !Consumes(ts[e.1], ";") then Err(ExpectMsg(";"))
      else Ok((ReturnStmt(e.0), e.1 + 1, st))
  }

  /** `get_return_ty`, a helper that is not part of this model, taken to
      give a function type's return type and any other type itself. */
  function ReturnType(t: Type): (r: Type)
    ensures t.Function? ==> r == t.ret
    ensures !t.Function? ==> r == t
  {
    if t.Function? then t.ret else t
  }

  /** The error `func_defn` reports for a visible function of the same
      name that is marked defined. */
  predicate Redefines(tab: Table, name: string)
    requires WellFormed(tab)
  {
    var found := Find(tab, name, tab.identifiers);
    found.Some? && IsFunc(tab.vars[found.value].ty) && tab.vars[found.value].defined
  }

  /** The checks `func_defn` makes before the body, in order; the first
      that fails gives the message. A parameter vector of more than six,
      a missing name, a `main` with parameters whose return type is not
      `int`, and a redefinition are errors. */
  function DefnError(tab: Table, id: Option<string>, fty: Type, n: nat): (r: Option<string>)
    requires WellFormed(tab)
    ensures r.None? <==> (n <= 6 && id.Some? && !(n > 0 && id.value == "main" && !ReturnType(fty).Int?)
                          && !Redefines(tab, id.value))
    ensures n > 6 ==> r == Some(TooManyParams)
  {
    if n > 6 then Some(TooManyParams)
    else if id.None? then Some(NoIdentifier)
    else if n > 0 && id.value == "main" && !ReturnType(fty).Int? then Some(NonAnsi(id.value))
    else if Redefines(tab, id.value) then Some(Redefinition(id.value))
    else None
  }

  /** `func_defn`: as written it first consumes the `{`; after the checks,
      the body, an optional `}`, and the function record, whose locals are
      the entries of the scope innermost once the body is closed. */
  function FuncDefn(ts: seq<Token>, i: nat, st: St, id: Option<string>, fty: Type,
                    params: Option<seq<nat>>, d: Dialect): (r: Result<(FuncDef, nat, St)>)
    requires ValidTokens(ts) && i < |ts| && Sound(st)
    ensures r.Ok? ==> i <= r.value.1 < |ts| && Sound(r.value.2) && Grows(st, r.value.2)
    ensures r.Ok? && Consumes(ts[i], "{") ==> i < r.value.1
    ensures r.Ok? ==> id.Some? && r.value.0.name == id.value && r.value.0.code.Block?
    ensures r.Ok? ==> r.value.0.params == params && r.value.0.nparams <= 6
    ensures r.Ok? ==> r.value.0.nparams == if params.Some? then |params.value| else 0
  {
    var j := if d == AsWritten && Consumes(ts[i], "{") then i + 1 else i;
    var n := if params.Some? then |params.value| else 0;
    var e := DefnError(st.tab, id, fty, n);
    if e.Some? then Err(e.value)
    else
      var body :- CmpStmt(ts, j, st, d);
      var k := if Consumes(ts[body.1], "}") then body.1 + 1 else body.1;
      var t := body.2.tab;
      Ok((FuncDef(id.value, body.0, t.frames[t.identifiers].entries, params, n,
                  t.frames[t.globals].entries, 0), k, body.2))
  }

  /** `ex_decltn`: at file level the stack size is reset, the file scope
      becomes the innermost, and the first declarator is parsed recording
      its parameters; a `{` after it makes a function definition, which gets
      the final stack size. Otherwise, and below file level, the declarator
      loop follows. */
  function ExDecltn(ts: seq<Token>, i: nat, st: St, d: Dialect): (r: Result<(Option<FuncDef>, nat, St)>)
    requires ValidTokens(ts) && i < |ts| && Sound(st)
    ensures r.Ok? ==> i < r.value.1 < |ts| && Sound(r.value.2)
    ensures r.Ok? && r.value.0.Some? ==> r.value.0.value.stackSize == r.value.2.stack
  {
    if st.tab.level == GLOBAL then
      var ty :- TypeSpcf(ts[i]);
      var dc :- Decltr(ts, i + 1, St(AtFileScope(st.tab), 0), ty, true, None, d);
      FileDecltn(ts, dc.1.pos, dc.1.st, dc.1.id, dc.0, dc.1.params, d)
    else
      var dn :- LocalDecl(ts, i, st, d);
      Ok((None, dn.1, dn.0))
  }

  /** What follows the first declarator at file level: a function
      definition when `{` comes next, with the final stack size, and the
      declarator loop otherwise. */
  function FileDecltn(ts: seq<Token>, i: nat, st: St, id: Option<string>, ty: Type,
                      params: Option<seq<nat>>, d: Dialect): (r: Result<(Option<FuncDef>, nat, St)>)
    requires ValidTokens(ts) && i < |ts| && Sound(st)
    ensures r.Ok? ==> i < r.value.1 < |ts| && Sound(r.value.2)
    ensures r.Ok? && r.value.0.Some? ==> r.value.0.value.stackSize == r.value.2.stack
    ensures r.Ok? && r.value.0.Some? <==> Equal(ts[i], "{") && FuncDefn(ts, i, st, id, ty, params, d).Ok?
  {
    if Equal(ts[i], "{") then
      EqualConsumes(ts, i, "{");
      var f :- FuncDefn(ts, i, st, id, ty, params, d);
      Ok((Some(f.0.(stackSize := f.2.stack)), f.1, f.2))
    else
      var dn :- Declarations(ts, i, st, id, ty);
      Ok((None, dn.1, dn.0))
  }

  /** The loop of `trns_unit`: up to the end of input, the level is reset to
      file level and an external declaration parsed; definitions are
      collected in order. */
  function Definitions(ts: seq<Token>, i: nat, st: St, d: Dialect): (r: Result<seq<FuncDef>>)
    requires ValidTokens(ts) && i < |ts| && Sound(st)
    decreases |ts| - i, 2
  {
    if ts[i].kind == Eof then Ok([]) else NextDefinition(ts, i, st, d)
  }

  /** One pass of the loop of `trns_unit` before the end of input: the
      level is reset to file level, then the passes from there. */
  function NextDefinition(ts: seq<Token>, i: nat, st: St, d: Dialect): (r: Result<seq<FuncDef>>)
    requires ValidTokens(ts) && i < |ts| && Sound(st)
    decreases |ts| - i, 1
  {
    ExternalDefinition(ts, i, St(Reset(st.tab), st.stack), d)
  }

  /** An external declaration, which may be a definition, and the passes
      after it. */
  function ExternalDefinition(ts: seq<Token>, i: nat, st: St, d: Dialect): (r: Result<seq<FuncDef>>)
    requires ValidTokens(ts) && i < |ts| && Sound(st)
    decreases |ts| - i, 0
  {
    var e :- ExDecltn(ts, i, st, d);
    var rest :- Definitions(ts, e.1, e.2, d);
    Ok((if e.0.Some? then [e.0.value] else []) + rest)
  }

  function Reverse<T>(s: seq<T>): (r: seq<T>)
    ensures |r| == |s| && forall k :: 0 <= k < |s| ==> r[k] == s[|s| - 1 - k]
  {
    if |s| == 0 then [] else Reverse(s[1..]) + [s[0]]
  }

  /** `trns_unit`: the definitions from an empty table, last first. */
  function TrnsUnit(ts: seq<Token>, d: Dialect): (r: Result<Code>)
    requires ValidTokens(ts)
    ensures r.Ok? <==> Definitions(ts, 0, St(Initial(), 0), d).Ok?
    ensures r.Ok? ==> r.value.n == |r.value.functions|
  {
    var fs :- Definitions(ts, 0, St(Initial(), 0), d);
    Ok(Code(Reverse(fs), |fs|))
  }
}
