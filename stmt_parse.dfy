/// Tokenizer driver and recursive-descent parser of the statement-level
/// compiler (parse.c, shapes in tinycc.h).
///
///   program    = stmt*
///   stmt       = "return" expr ";"
///              | "if" "(" expr ")" stmt ("else" stmt)?
///              | "for" "(" expr? ";" expr? ";" expr? ")" stmt
///              | expr ";"
///   expr       = assign
///   assign     = equality ("=" assign)?
///   equality, relational, add, mul, unary as in the calculator
///   primary    = "(" expr ")" | ident | num
///
/// The grammar comment of parse.c also lists `while`, but neither the
/// tokenizer nor `stmt` knows it: `while` is read as an identifier.
/// As in the calculator, the grammar is given as functions over the tokens,
/// a cursor and the list of locals, and the class `Front` holds the source's
/// globals (`token` as a cursor into `toks`, and `locals`), with one method
/// per C function proved to agree with its function.

module StmtParse {
  import opened Util
  import opened StmtLex
  import opened BinOps

  /** Syntax tree of a statement or expression. The parser never builds
      `WhileStmt` or `Block`, which only the code generator knows. */
  datatype Node =
    | Num(val: int)
    | LVar(offset: int)
    | Bin(op: BinOp, left: Node, right: Node)
    | Assign(left: Node, right: Node)
    | ReturnStmt(value: Node)
    | IfStmt(cond: Node, body: Node, els: Option<Node>)
    | ForStmt(init: Option<Node>, test: Option<Node>, step: Option<Node>, body: Node)
    | WhileStmt(cond: Node, body: Node)
    | Block(stmts: seq<Node>)

  predicate ValidTokens(ts: seq<Token>) { |ts| > 0 && ts[|ts| - 1].kind == Eof }

  /** `consume(op)`/`expect(op)` accept `t`: a symbol token whose characters,
      read from its start in the input, begin with `op`. */
  predicate Matches(t: Token, op: string) { t.kind == Reserved && StartsWith(t.str, op) }

  function ExpectMsg(op: string): string { "expected '" + op + "'" }

  const NotANumber := "not a number"

  type Locals = seq<seq<char>>

  type Parsed = Result<(Node, nat)>

  /** A token other than the end marker is never the last one. */
  lemma NotLast(ts: seq<Token>, i: nat)
    requires ValidTokens(ts) && i < |ts| && ts[i].kind != Eof
    ensures i + 1 < |ts|
  {
  }

  function ParseProgram(ts: seq<Token>, i: nat, l: Locals): (r: Result<seq<Node>>)
    requires ValidTokens(ts) && i < |ts|
    ensures ts[i].kind == Eof ==> r == Ok([])
    ensures r.Ok? ==> |r.value| < |ts| - i
    decreases |ts| - i
  {
    if ts[i].kind == Eof then Ok([])
    else
      var s :- ParseStmt(ts, i, l);
      var rest :- ParseProgram(ts, s.1, l);
      Ok([s.0] + rest)
  }

  function ParseStmt(ts: seq<Token>, i: nat, l: Locals): (r: Parsed)
    requires ValidTokens(ts) && i < |ts|
    ensures r.Ok? ==> i < r.value.1 < |ts|
    decreases |ts| - i, 10
  {
    if ts[i].kind == Return then
      var e :- ParseExpr(ts, i + 1, l);
      if Matches(ts[e.1], ";") then Ok((ReturnStmt(e.0), e.1 + 1)) else Err(ExpectMsg(";"))
    else if ts[i].kind == If then ParseIf(ts, i + 1, l)
    else if ts[i].kind == For then ParseFor(ts, i + 1, l)
    else
      var e :- ParseExpr(ts, i, l);
      if Matches(ts[e.1], ";") then Ok((e.0, e.1 + 1)) else Err(ExpectMsg(";"))
  }

  /** The rest of an `if` statement after the keyword: `else` is optional. */
  function ParseIf(ts: seq<Token>, i: nat, l: Locals): (r: Parsed)
    requires ValidTokens(ts) && i < |ts|
    ensures r.Ok? ==> i < r.value.1 < |ts|
    decreases |ts| - i, 10
  {
    if !Matches(ts[i], "(") then Err(ExpectMsg("("))
    else
      var c :- ParseExpr(ts, i + 1, l);
      if !Matches(ts[c.1], ")") then Err(ExpectMsg(")"))
      else
        var body :- ParseStmt(ts, c.1 + 1, l);
        if ts[body.1].kind == Else then
          var els :- ParseStmt(ts, body.1 + 1, l);
          Ok((IfStmt(c.0, body.0, Some(els.0)), els.1))
        else Ok((IfStmt(c.0, body.0, None), body.1))
  }

  /** The rest of a `for` statement after the keyword. */
  function ParseFor(ts: seq<Token>, i: nat, l: Locals): (r: Parsed)
    requires ValidTokens(ts) && i < |ts|
    ensures r.Ok? ==> i < r.value.1 < |ts|
    decreases |ts| - i, 10
  {
    if !Matches(ts[i], "(") then Err(ExpectMsg("("))
    else
      var init :- Clause(ts, i + 1, l, ";");
      var cond :- Clause(ts, init.1, l, ";");
      var step :- Clause(ts, cond.1, l, ")");
      var body :- ParseStmt(ts, step.1, l);
      Ok((ForStmt(init.0, cond.0, step.0, body.0), body.1))
  }

  /** One clause of a `for` header and its closing symbol `close`: the symbol
      alone leaves the clause out. */
  function Clause(ts: seq<Token>, i: nat, l: Locals, close: string): (r: Result<(Option<Node>, nat)>)
    requires ValidTokens(ts) && i < |ts|
    ensures r.Ok? ==> i < r.value.1 < |ts|
    decreases |ts| - i, 9
  {
    if Matches(ts[i], close) then Ok((None, i + 1))
    else
      var e :- ParseExpr(ts, i, l);
      if Matches(ts[e.1], close) then Ok((Some(e.0), e.1 + 1)) else Err(ExpectMsg(close))
  }

  function ParseExpr(ts: seq<Token>, i: nat, l: Locals): (r: Parsed)
    requires ValidTokens(ts) && i < |ts|
    ensures r.Ok? ==> i < r.value.1 < |ts|
    decreases |ts| - i, 8
  {
    ParseAssign(ts, i, l)
  }

  function ParseAssign(ts: seq<Token>, i: nat, l: Locals): (r: Parsed)
    requires ValidTokens(ts) && i < |ts|
    ensures r.Ok? ==> i < r.value.1 < |ts|
    decreases |ts| - i, 7
  {
    var left :- ParseEquality(ts, i, l);
    if Matches(ts[left.1], "=") then
      var right :- ParseAssign(ts, left.1 + 1, l);
      Ok((Assign(left.0, right.0), right.1))
    else Ok(left)
  }

  function ParseEquality(ts: seq<Token>, i: nat, l: Locals): (r: Parsed)
    requires ValidTokens(ts) && i < |ts|
    ensures r.Ok? ==> i < r.value.1 < |ts|
    decreases |ts| - i, 6
  {
    var left :- ParseRelational(ts, i, l);
    EqualityTail(ts, left.1, l, left.0)
  }

  function EqualityTail(ts: seq<Token>, i: nat, l: Locals, acc: Node): (r: Parsed)
    requires ValidTokens(ts) && i < |ts|
    ensures r.Ok? ==> i <= r.value.1 < |ts|
    decreases |ts| - i, 6
  {
    if Matches(ts[i], "==") then
      var right :- ParseRelational(ts, i + 1, l);
      EqualityTail(ts, right.1, l, Bin(Eq, acc, right.0))
    else if Matches(ts[i], "!=") then
      var right :- ParseRelational(ts, i + 1, l);
      EqualityTail(ts, right.1, l, Bin(Ne, acc, right.0))
    else Ok((acc, i))
  }

  function ParseRelational(ts: seq<Token>, i: nat, l: Locals): (r: Parsed)
    requires ValidTokens(ts) && i < |ts|
    ensures r.Ok? ==> i < r.value.1 < |ts|
    decreases |ts| - i, 5
  {
    var left :- ParseAdd(ts, i, l);
    RelationalTail(ts, left.1, l, left.0)
  }

  /** The comparison a token starts, longest symbol first. */
  function RelationalOp(t: Token): (r: Option<BinOp>)
    ensures r.Some? ==> r.value in {Ge, Le, Gt, Lt}
  {
    if Matches(t, ">=") then Some(Ge)
    else if Matches(t, "<=") then Some(Le)
    else if Matches(t, ">") then Some(Gt)
    else if Matches(t, "<") then Some(Lt)
    else None
  }

  /** `>=` and `>` put the new operand on the left: `a > b` is parsed as
      `b < a`. */
  function Combine(op: BinOp, acc: Node, operand: Node): Node {
    if op == Ge || op == Gt then Bin(op, operand, acc) else Bin(op, acc, operand)
  }

  function RelationalTail(ts: seq<Token>, i: nat, l: Locals, acc: Node): (r: Parsed)
    requires ValidTokens(ts) && i < |ts|
    ensures r.Ok? ==> i <= r.value.1 < |ts|
    decreases |ts| - i, 5
  {
    match RelationalOp(ts[i])
    case None => Ok((acc, i))
    case Some(op) =>
      var operand :- ParseAdd(ts, i + 1, l);
      RelationalTail(ts, operand.1, l, Combine(op, acc, operand.0))
  }

  function ParseAdd(ts: seq<Token>, i: nat, l: Locals): (r: Parsed)
    requires ValidTokens(ts) && i < |ts|
    ensures r.Ok? ==> i < r.value.1 < |ts|
    decreases |ts| - i, 4
  {
    var left :- ParseMul(ts, i, l);
    AddTail(ts, left.1, l, left.0)
  }

  function AddTail(ts: seq<Token>, i: nat, l: Locals, acc: Node): (r: Parsed)
    requires ValidTokens(ts) && i < |ts|
    ensures r.Ok? ==> i <= r.value.1 < |ts|
    decreases |ts| - i, 4
  {
    if Matches(ts[i], "+") then
      var right :- ParseMul(ts, i + 1, l);
      AddTail(ts, right.1, l, Bin(Add, acc, right.0))
    else if Matches(ts[i], "-") then
      var right :- ParseMul(ts, i + 1, l);
      AddTail(ts, right.1, l, Bin(Sub, acc, right.0))
    else Ok((acc, i))
  }

  function ParseMul(ts: seq<Token>, i: nat, l: Locals): (r: Parsed)
    requires ValidTokens(ts) && i < |ts|
    ensures r.Ok? ==> i < r.value.1 < |ts|
    decreases |ts| - i, 3
  {
    var left :- ParseUnary(ts, i, l);
    MulTail(ts, left.1, l, left.0)
  }

  function MulTail(ts: seq<Token>, i: nat, l: Locals, acc: Node): (r: Parsed)
    requires ValidTokens(ts) && i < |ts|
    ensures r.Ok? ==> i <= r.value.1 < |ts|
    decreases |ts| - i, 3
  {
    if Matches(ts[i], "*") then
      var right :- ParseUnary(ts, i + 1, l);
      MulTail(ts, right.1, l, Bin(Mul, acc, right.0))
    else if Matches(ts[i], "/") then
      var right :- ParseUnary(ts, i + 1, l);
      MulTail(ts, right.1, l, Bin(Div, acc, right.0))
    else Ok((acc, i))
  }

  function ParseUnary(ts: seq<Token>, i: nat, l: Locals): (r: Parsed)
    requires ValidTokens(ts) && i < |ts|
    ensures r.Ok? ==> i < r.value.1 < |ts|
    decreases |ts| - i, 2
  {
    if Matches(ts[i], "+") then ParsePrimary(ts, i + 1, l)
    else if Matches(ts[i], "-") then
      var right :- ParsePrimary(ts, i + 1, l);
      Ok((Bin(Sub, Num(0), right.0), right.1))
    else ParsePrimary(ts, i, l)
  }

  /** An identifier becomes a variable node carrying its offset. */
  function ParsePrimary(ts: seq<Token>, i: nat, l: Locals): (r: Parsed)
    requires ValidTokens(ts) && i < |ts|
    ensures r.Ok? ==> i < r.value.1 < |ts|
    decreases |ts| - i, 1
  {
    if Matches(ts[i], "(") then
      var e :- ParseExpr(ts, i + 1, l);
      if Matches(ts[e.1], ")") then Ok((e.0, e.1 + 1)) else Err(ExpectMsg(")"))
    else if ts[i].kind == Ident then Ok((LVar(Offset(l, Name(ts[i]))), i + 1))
    else if ts[i].kind == Number then Ok((Num(ts[i].val), i + 1))
    else Err(NotANumber)
  }

  predicate Agrees<T(==)>(r: Result<T>, pos: nat, s: Result<(T, nat)>) {
    match s
    case Ok(v) => r == Ok(v.0) && pos == v.1
    case Err(m) => r == Err(m)
  }

  /** The globals of parse.c: the token list with the `token` cursor, and the
      list of local variables. */
  class Front {
    var toks: seq<Token>
    var pos: nat
    var locals: Locals
    /** Whether `update_locals` runs as written or corrected to append. */
    const dialect: Dialect

    ghost predicate Valid()
      reads this
    {
      ValidTokens(toks) && pos < |toks|
    }

    constructor (d: Dialect)
      ensures Valid() && toks == [EofToken()] && pos == 0 && locals == [] && dialect == d
    {
      toks := [EofToken()];
      pos := 0;
      locals := [];
      dialect := d;
    }

    /** `exist_in_locals`: walks the list and returns the 1-based position of
        the first entry spelling `target`, or 0. */
    method ExistInLocals(target: seq<char>) returns (i: nat)
      ensures i == Position(locals, target)
    {
      var k := 0;
      while k < |locals|
        invariant 0 <= k <= |locals|
        invariant forall m :: 0 <= m < k ==> locals[m] != target
      {
        if locals[k] == target {
          return k + 1;
        }
        k := k + 1;
      }
      return 0;
    }

    /** `update_locals`: a known name changes nothing; a new one is linked
        right after the list head, replacing every entry, as written, or
        goes after the last entry, corrected. */
    method UpdateLocals(target: seq<char>)
      modifies this
      ensures dialect == AsWritten ==> locals == RegisterAsWritten(old(locals), target)
      ensures dialect == Corrected ==> locals == Register(old(locals), target)
      ensures toks == old(toks) && pos == old(pos)
    {
      var exist := ExistInLocals(target);
      if exist == 0 {
        if dialect == AsWritten {
          locals := [target];
        } else {
          locals := locals + [target];
        }
      }
    }

    /** `tokenize` followed by `main`'s `token = ...`: clears the locals,
        reads the input, registers every identifier as it is read, and on
        success puts the cursor on the first token. */
    method Tokenize(input: seq<char>) returns (r: Result<seq<Token>>)
      modifies this
      ensures r == Lex(input)
      ensures r.Ok? ==> Valid() && toks == r.value && pos == 0
      ensures r.Ok? && dialect == AsWritten ==> locals == LocalsOfAsWritten(r.value)
      ensures r.Ok? && dialect == Corrected ==> locals == LocalsOf(r.value)
    {
      locals := [];
      var p := 0;
      var out: seq<Token> := [];
      assert input[p..] == input;
      if Lex(input).Ok? { assert out + Lex(input).value == Lex(input).value; }
      assert LexedUpTo(input, 0, out);
      while p < |input|
        invariant 0 <= p <= |input|
        invariant LexedUpTo(input, p, out)
        invariant dialect == AsWritten ==> locals == LocalsOfAsWritten(out)
        invariant dialect == Corrected ==> locals == LocalsOf(out)
        decreases |input| - p
      {
        var q, t, ok := Advance(input, p, out);
        if !ok {
          return Err("cannot tokenize");
        }
        if t.Some? && t.value.kind == Ident {
          UpdateLocals(Name(t.value));
        }
        LocalsStep(out, t);
        out := out + Seq(t);
        p := q;
      }
      assert input[p..] == [];
      LocalsOfStep(out, EofToken());
      LocalsOfAsWrittenStep(out, EofToken());
      out := out + [EofToken()];
      toks := out;
      pos := 0;
      return Ok(out);
    }

    /** One turn of the `tokenize` loop up to the registration of an
        identifier: a space is skipped, anything else becomes a token or
        stops the loop with an error. */
    method Advance(input: seq<char>, p: nat, ghost out: seq<Token>) returns (q: nat, t: Option<Token>, ok: bool)
      requires p < |input| && LexedUpTo(input, p, out)
      ensures ok ==> p < q <= |input| && LexedUpTo(input, q, out + Seq(t))
      ensures ok && t.Some? ==> t == Lexeme(input[p..])
      ensures !ok ==> Lex(input) == Err("cannot tokenize")
    {
      var rest := input[p..];
      if IsSpace(rest[0]) {
        q, t, ok := p + 1, None, true;
        SpaceStep(input, p, out, q, t);
      } else {
        t := Lexeme(rest);
        if t.Some? {
          q, ok := p + t.value.len, true;
          AppendStep(input, p, out, q, t);
        } else {
          q, ok := p, false;
          StuckStep(input, p, out);
        }
      }
    }

    /** `at_eof`. */
    method AtEof() returns (b: bool)
      requires Valid()
      ensures b == (toks[pos].kind == Eof)
    {
      return toks[pos].kind == Eof;
    }

    /** `consume_token`: advances over a token of the given kind. */
    method ConsumeToken(kind: TokenKind) returns (b: bool)
      requires Valid() && kind != Eof
      modifies this
      ensures Valid() && toks == old(toks) && locals == old(locals)
      ensures b == (toks[old(pos)].kind == kind)
      ensures pos == if b then old(pos) + 1 else old(pos)
    {
      if toks[pos].kind != kind {
        return false;
      }
      pos := pos + 1;
      return true;
    }

    /** `consume`. */
    method Consume(op: string) returns (b: bool)
      requires Valid()
      modifies this
      ensures Valid() && toks == old(toks) && locals == old(locals)
      ensures b == Matches(toks[old(pos)], op)
      ensures pos == if b then old(pos) + 1 else old(pos)
    {
      if toks[pos].kind != Reserved || !StartsWith(toks[pos].str, op) {
        return false;
      }
      pos := pos + 1;
      return true;
    }

    /** `expect`: a mismatch is an error. */
    method Expect(op: string) returns (r: Result<()>)
      requires Valid()
      modifies this
      ensures Valid() && toks == old(toks) && locals == old(locals)
      ensures r == if Matches(toks[old(pos)], op) then Ok(()) else Err(ExpectMsg(op))
      ensures pos == if r.Ok? then old(pos) + 1 else old(pos)
    {
      if toks[pos].kind != Reserved || !StartsWith(toks[pos].str, op) {
        return Err(ExpectMsg(op));
      }
      pos := pos + 1;
      return Ok(());
    }

    /** `expect_number`. */
    method ExpectNumber() returns (r: Result<int>)
      requires Valid()
      modifies this
      ensures Valid() && toks == old(toks) && locals == old(locals)
      ensures r == if toks[old(pos)].kind == Number then Ok(toks[old(pos)].val) else Err(NotANumber)
      ensures pos == if r.Ok? then old(pos) + 1 else old(pos)
    {
      if toks[pos].kind != Number {
        return Err(NotANumber);
      }
      var val := toks[pos].val;
      pos := pos + 1;
      return Ok(val);
    }

    /** `expect_lvar`: on an identifier, passes over it and returns 8 times
        its position in the locals (0 when absent); otherwise returns -1 and
        leaves the cursor. */
    method ExpectLvar() returns (offset: int)
      requires Valid()
      modifies this
      ensures Valid() && toks == old(toks) && locals == old(locals)
      ensures offset == if toks[old(pos)].kind == Ident then Offset(locals, Name(toks[old(pos)])) else -1
      ensures pos == if toks[old(pos)].kind == Ident then old(pos) + 1 else old(pos)
    {
      if toks[pos].kind == Ident {
        var i := ExistInLocals(Name(toks[pos]));
        offset := i * 8;
        pos := pos + 1;
        return offset;
      }
      return -1;
    }

    /** `program`: statements until the end marker, in source order. */
    method Program() returns (r: Result<seq<Node>>)
      requires Valid()
      modifies this
      ensures Valid() && toks == old(toks) && locals == old(locals)
      ensures r == ParseProgram(toks, old(pos), locals)
    {
      var code: seq<Node> := [];
      var rest := ParseProgram(toks, pos, locals);
      if rest.Ok? { assert code + rest.value == rest.value; }
      while true
        invariant Valid() && toks == old(toks) && locals == old(locals)
        invariant ParseProgram(toks, old(pos), locals) == PrependNodes(code, ParseProgram(toks, pos, locals))
        decreases |toks| - pos
      {
        var eof := AtEof();
        if eof {
          assert code + [] == code;
          return Ok(code);
        }
        var s := Stmt();
        if s.Err? { return Err(s.msg); }
        PrependNodesAssoc(code, [s.value], ParseProgram(toks, pos, locals));
        code := code + [s.value];
      }
    }

    method Stmt() returns (r: Result<Node>)
      requires Valid()
      modifies this
      ensures Valid() && toks == old(toks) && locals == old(locals)
      ensures Agrees(r, pos, ParseStmt(toks, old(pos), locals))
      decreases |toks| - pos, 10
    {
      var b := ConsumeToken(Return);
      if b {
        var right := Expr();
        if right.Err? { return Err(right.msg); }
        var e := Expect(";");
        if e.Err? { return Err(e.msg); }
        return Ok(ReturnStmt(right.value));
      }
      b := ConsumeToken(If);
      if b {
        r := IfStatement();
        return;
      }
      b := ConsumeToken(For);
      if b {
        r := ForStatement();
        return;
      }
      var x := Expr();
      if x.Err? { return Err(x.msg); }
      var e := Expect(";");
      if e.Err? { return Err(e.msg); }
      return Ok(x.value);
    }

    /** The `if` branch of `stmt`, after the keyword. */
    method IfStatement() returns (r: Result<Node>)
      requires Valid()
      modifies this
      ensures Valid() && toks == old(toks) && locals == old(locals)
      ensures Agrees(r, pos, ParseIf(toks, old(pos), locals))
      decreases |toks| - pos, 10
    {
      var e := Expect("(");
      if e.Err? { return Err(e.msg); }
      var cond := Expr();
      if cond.Err? { return Err(cond.msg); }
      e := Expect(")");
      if e.Err? { return Err(e.msg); }
      var body := Stmt();
      if body.Err? { return Err(body.msg); }
      var els: Option<Node> := None;
      var b := ConsumeToken(Else);
      if b {
        var s := Stmt();
        if s.Err? { return Err(s.msg); }
        els := Some(s.value);
      }
      return Ok(IfStmt(cond.value, body.value, els));
    }

    /** The `for` branch of `stmt`, after the keyword. */
    method ForStatement() returns (r: Result<Node>)
      requires Valid()
      modifies this
      ensures Valid() && toks == old(toks) && locals == old(locals)
      ensures Agrees(r, pos, ParseFor(toks, old(pos), locals))
      decreases |toks| - pos, 10
    {
      var e := Expect("(");
      if e.Err? { return Err(e.msg); }
      var init := ForClause(";");
      if init.Err? { return Err(init.msg); }
      var cond := ForClause(";");
      if cond.Err? { return Err(cond.msg); }
      var step := ForClause(")");
      if step.Err? { return Err(step.msg); }
      var body := Stmt();
      if body.Err? { return Err(body.msg); }
      return Ok(ForStmt(init.value, cond.value, step.value, body.value));
    }

    /** One clause of a `for` header: `if (!consume(close)) { x = expr(); expect(close); }`. */
    method ForClause(close: string) returns (r: Result<Option<Node>>)
      requires Valid()
      modifies this
      ensures Valid() && toks == old(toks) && locals == old(locals)
      ensures Agrees(r, pos, Clause(toks, old(pos), locals, close))
      decreases |toks| - pos, 9
    {
      var b := Consume(close);
      if b { return Ok(None); }
      var x := Expr();
      if x.Err? { return Err(x.msg); }
      var e := Expect(close);
      if e.Err? { return Err(e.msg); }
      return Ok(Some(x.value));
    }

    method Expr() returns (r: Result<Node>)
      requires Valid()
      modifies this
      ensures Valid() && toks == old(toks) && locals == old(locals)
      ensures Agrees(r, pos, ParseExpr(toks, old(pos), locals))
      decreases |toks| - pos, 8
    {
      r := Assignment();
    }

    /** `assign`: right-recursive, so `a = b = c` is `a = (b = c)`. */
    method Assignment() returns (r: Result<Node>)
      requires Valid()
      modifies this
      ensures Valid() && toks == old(toks) && locals == old(locals)
      ensures Agrees(r, pos, ParseAssign(toks, old(pos), locals))
      decreases |toks| - pos, 7
    {
      var left := Equality();
      if left.Err? { return Err(left.msg); }
      var b := Consume("=");
      if b {
        var right := Assignment();
        if right.Err? { return Err(right.msg); }
        return Ok(Assign(left.value, right.value));
      }
      return left;
    }

    method Equality() returns (r: Result<Node>)
      requires Valid()
      modifies this
      ensures Valid() && toks == old(toks) && locals == old(locals)
      ensures Agrees(r, pos, ParseEquality(toks, old(pos), locals))
      decreases |toks| - pos, 6
    {
      var left := Relational();
      if left.Err? { return Err(left.msg); }
      var ret := left.value;
      while true
        invariant Valid() && toks == old(toks) && locals == old(locals) && old(pos) <= pos
        invariant ParseEquality(toks, old(pos), locals) == EqualityTail(toks, pos, locals, ret)
        decreases |toks| - pos
      {
        var b := Consume("==");
        if b {
          var right := Relational();
          if right.Err? { return Err(right.msg); }
          ret := Bin(Eq, ret, right.value);
          continue;
        }
        b := Consume("!=");
        if b {
          var right := Relational();
          if right.Err? { return Err(right.msg); }
          ret := Bin(Ne, ret, right.value);
          continue;
        }
        return Ok(ret);
      }
    }

    method Relational() returns (r: Result<Node>)
      requires Valid()
      modifies this
      ensures Valid() && toks == old(toks) && locals == old(locals)
      ensures Agrees(r, pos, ParseRelational(toks, old(pos), locals))
      decreases |toks| - pos, 5
    {
      var first := Add();
      if first.Err? { return Err(first.msg); }
      var ret := first.value;
      while true
        invariant Valid() && toks == old(toks) && locals == old(locals) && old(pos) <= pos
        invariant ParseRelational(toks, old(pos), locals) == RelationalTail(toks, pos, locals, ret)
        decreases |toks| - pos
      {
        var op := RelationalOperator();
        if op.None? { return Ok(ret); }
        var operand := Add();
        if operand.Err? { return Err(operand.msg); }
        ret := Combine(op.value, ret, operand.value);
      }
    }

    /** The four `consume` tests of the `relational` loop, in their order. */
    method RelationalOperator() returns (op: Option<BinOp>)
      requires Valid()
      modifies this
      ensures Valid() && toks == old(toks) && locals == old(locals)
      ensures op == RelationalOp(toks[old(pos)])
      ensures pos == if op.Some? then old(pos) + 1 else old(pos)
    {
      var b := Consume(">=");
      if b { return Some(Ge); }
      b := Consume("<=");
      if b { return Some(Le); }
      b := Consume(">");
      if b { return Some(Gt); }
      b := Consume("<");
      if b { return Some(Lt); }
      return None;
    }


    method Add() returns (r: Result<Node>)
      requires Valid()
      modifies this
      ensures Valid() && toks == old(toks) && locals == old(locals)
      ensures Agrees(r, pos, ParseAdd(toks, old(pos), locals))
      decreases |toks| - pos, 4
    {
      var left := Mul();
      if left.Err? { return Err(left.msg); }
      var ret := left.value;
      while true
        invariant Valid() && toks == old(toks) && locals == old(locals) && old(pos) <= pos
        invariant ParseAdd(toks, old(pos), locals) == AddTail(toks, pos, locals, ret)
        decreases |toks| - pos
      {
        var b := Consume("+");
        if b {
          var right := Mul();
          if right.Err? { return Err(right.msg); }
          ret := Bin(BinOp.Add, ret, right.value);
          continue;
        }
        b := Consume("-");
        if b {
          var right := Mul();
          if right.Err? { return Err(right.msg); }
          ret := Bin(Sub, ret, right.value);
          continue;
        }
        return Ok(ret);
      }
    }

    method Mul() returns (r: Result<Node>)
      requires Valid()
      modifies this
      ensures Valid() && toks == old(toks) && locals == old(locals)
      ensures Agrees(r, pos, ParseMul(toks, old(pos), locals))
      decreases |toks| - pos, 3
    {
      var left := Unary();
      if left.Err? { return Err(left.msg); }
      var ret := left.value;
      while true
        invariant Valid() && toks == old(toks) && locals == old(locals) && old(pos) <= pos
        invariant ParseMul(toks, old(pos), locals) == MulTail(toks, pos, locals, ret)
        decreases |toks| - pos
      {
        var b := Consume("*");
        if b {
          var right := Unary();
          if right.Err? { return Err(right.msg); }
          ret := Bin(BinOp.Mul, ret, right.value);
          continue;
        }
        b := Consume("/");
        if b {
          var right := Unary();
          if right.Err? { return Err(right.msg); }
          ret := Bin(Div, ret, right.value);
          continue;
        }
        return Ok(ret);
      }
    }

    method Unary() returns (r: Result<Node>)
      requires Valid()
      modifies this
      ensures Valid() && toks == old(toks) && locals == old(locals)
      ensures Agrees(r, pos, ParseUnary(toks, old(pos), locals))
      decreases |toks| - pos, 2
    {
      var b := Consume("+");
      if b {
        r := Primary();
        return;
      }
      b := Consume("-");
      if b {
        var right := Primary();
        if right.Err? { return Err(right.msg); }
        return Ok(Bin(Sub, Num(0), right.value));
      }
      r := Primary();
    }

    method Primary() returns (r: Result<Node>)
      requires Valid()
      modifies this
      ensures Valid() && toks == old(toks) && locals == old(locals)
      ensures Agrees(r, pos, ParsePrimary(toks, old(pos), locals))
      decreases |toks| - pos, 1
    {
      var b := Consume("(");
      if b {
        var e := Expr();
        if e.Err? { return Err(e.msg); }
        var x := Expect(")");
        if x.Err? { return Err(x.msg); }
        return e;
      }
      var offset := ExpectLvar();
      if offset != -1 {
        return Ok(LVar(offset));
      }
      var n := ExpectNumber();
      if n.Err? { return Err(n.msg); }
      return Ok(Num(n.value));
    }
  }

  /** Prefixes the trees `code` to a successful result. */
  function PrependNodes(code: seq<Node>, r: Result<seq<Node>>): Result<seq<Node>> {
    if r.Ok? then Ok(code + r.value) else r
  }

  lemma PrependNodesAssoc(a: seq<Node>, b: seq<Node>, r: Result<seq<Node>>)
    ensures PrependNodes(a + b, r) == PrependNodes(a, PrependNodes(b, r))
  {
    if r.Ok? { assert (a + b) + r.value == a + (b + r.value); }
  }

  /** Registering the identifiers of one more token. */
  lemma LocalsOfStep(ts: seq<Token>, t: Token)
    ensures LocalsOf(ts + [t]) == if t.kind == Ident then Register(LocalsOf(ts), Name(t)) else LocalsOf(ts)
  {
    assert (ts + [t])[..|ts|] == ts;
  }

  lemma LocalsOfAsWrittenStep(ts: seq<Token>, t: Token)
    ensures LocalsOfAsWritten(ts + [t]) ==
      if t.kind == Ident then RegisterAsWritten(LocalsOfAsWritten(ts), Name(t)) else LocalsOfAsWritten(ts)
  {
    assert (ts + [t])[..|ts|] == ts;
  }

  /** The loop invariant of `tokenize`: the tokens made so far followed by
      the tokens of the rest are the tokens of the whole input. */
  predicate LexedUpTo(input: seq<char>, p: nat, toks: seq<Token>)
    requires p <= |input|
  {
    Lex(input) == Prepend(toks, Lex(input[p..]))
  }

  /** A step of the `tokenize` loop over a space character. */
  lemma SpaceStep(input: seq<char>, p: nat, toks: seq<Token>, q: nat, t: Option<Token>)
    requires p < |input| && IsSpace(input[p]) && q == p + 1 && t.None?
    requires LexedUpTo(input, p, toks)
    ensures toks + Seq(t) == toks
    ensures LexedUpTo(input, q, toks + Seq(t))
  {
    assert input[p..][1..] == input[p + 1..];
    assert toks + Seq(None) == toks;
  }

  /** A step of the `tokenize` loop over a token. */
  lemma AppendStep(input: seq<char>, p: nat, toks: seq<Token>, q: nat, t: Option<Token>)
    requires p < |input| && !IsSpace(input[p]) && Lexeme(input[p..]) == t && t.Some?
    requires q == p + t.value.len
    requires LexedUpTo(input, p, toks)
    ensures p < q <= |input|
    ensures LexedUpTo(input, q, toks + Seq(t))
  {
    var u := t.value;
    var rest := input[p..];
    LexLexeme(rest);
    assert rest[u.len..] == input[q..];
    PrependAssoc(toks, u, Lex(input[q..]));
  }

  /** Prepending the tokens made so far, then one more token. */
  lemma PrependAssoc(toks: seq<Token>, u: Token, r: Result<seq<Token>>)
    ensures Prepend(toks, Prepend([u], r)) == Prepend(toks + Seq(Some(u)), r)
  {
    if r.Ok? {
      assert (toks + [u]) + r.value == toks + ([u] + r.value);
    }
  }

  /** The locals after one more token, as the tokenize loop keeps them. */
  lemma LocalsStep(toks: seq<Token>, t: Option<Token>)
    ensures LocalsOf(toks + Seq(t)) ==
      if t.Some? && t.value.kind == Ident then Register(LocalsOf(toks), Name(t.value)) else LocalsOf(toks)
    ensures LocalsOfAsWritten(toks + Seq(t)) ==
      if t.Some? && t.value.kind == Ident then RegisterAsWritten(LocalsOfAsWritten(toks), Name(t.value))
      else LocalsOfAsWritten(toks)
  {
    if t.Some? {
      assert toks + Seq(t) == toks + [t.value];
      LocalsOfStep(toks, t.value);
      LocalsOfAsWrittenStep(toks, t.value);
    } else {
      assert toks + Seq(t) == toks;
    }
  }

  /** A step of the `tokenize` loop at a character no branch accepts. */
  lemma StuckStep(input: seq<char>, p: nat, toks: seq<Token>)
    requires p < |input| && !IsSpace(input[p]) && Lexeme(input[p..]).None?
    requires LexedUpTo(input, p, toks)
    ensures Lex(input) == Err("cannot tokenize")
  {
  }

  /** The tokens of an input that starts with a lexeme. */
  lemma LexLexeme(s: seq<char>)
    requires |s| > 0 && !IsSpace(s[0]) && Lexeme(s).Some?
    ensures Lex(s) == Prepend([Lexeme(s).value], Lex(s[Lexeme(s).value.len..]))
  {
  }
}
