/// The parser of the typed front end as the C code runs it: the token
/// cursor (`Token **rest`), decl.c's `stack_size` and sym.c's table are
/// state that the parsing functions advance and update in place. Each
/// method is proved to do what the function of the same name in `CExpr`,
/// `CDecltr` or `CStmt` specifies: same result, same final cursor, same
/// final declaration state, same error.

module CParser {
  import opened Util
  import opened Types
  import opened Sym
  import opened CLex
  import opened CTokens
  import opened CList
  import opened CExpr
  import opened CDecltr
  import opened CStmt

  /** What a declarator leaves in the C variables `ty`, `*id` and
      `*params`: the chain of type nodes, the name, the parameter vector. */
  datatype Declarator = Declarator(chain: seq<Layer>, id: Option<string>, params: Option<seq<nat>>)

  /** A method's result and cursor agree with a parsing function's result. */
  predicate Agrees<T(==)>(r: Result<T>, pos: nat, s: Result<(T, nat)>) {
    match s
    case Ok(v) => r == Ok(v.0) && pos == v.1
    case Err(m) => r == Err(m)
  }

  /** An expression method agrees with its parsing function: same result,
      same cursor, and `head` is what it was before unless the parse wrote
      it. */
  predicate HAgrees(r: Result<Node>, pos: nat, head: Head, h0: Head, s: Parsed) {
    match s
    case Ok(v) => r == Ok(v.0) && pos == v.1 && head == Later(h0, v.2)
    case Err(m) => r == Err(m)
  }

  /** `arg_list` agrees with its function; a list with arguments leaves in
      `head` what the function says, `None` while `head.next` is the last
      argument of a list below the top frame. */
  predicate LAgrees(r: Result<seq<Arg>>, pos: nat, head: Head, h0: Head, s: Result<(seq<Arg>, nat, Head)>) {
    match s
    case Ok(v) => r == Ok(v.0) && pos == v.1 && head == (if |v.0| == 0 then h0 else v.2)
    case Err(m) => r == Err(m)
  }

  /** As `Agrees`, for a parsing function that also gives the new
      declaration state. */
  predicate SAgrees<T(==)>(r: Result<T>, pos: nat, st: St, s: Result<(T, nat, St)>) {
    match s
    case Ok(v) => r == Ok(v.0) && pos == v.1 && st == v.2
    case Err(m) => r == Err(m)
  }

  /** A declarator method agrees with `decltr1`. */
  predicate DAgrees(r: Result<Declarator>, pos: nat, st: St, s: Result<Dcl>) {
    match s
    case Ok(dc) => r == Ok(Declarator(dc.chain, dc.id, dc.params)) && pos == dc.pos && st == dc.st
    case Err(m) => r == Err(m)
  }

  /** `decltr` agrees with its function: the type and what `decltr1` left. */
  predicate TAgrees(r: Result<(Type, Declarator)>, pos: nat, st: St, s: Result<(Type, Dcl)>) {
    match s
    case Ok(v) => r == Ok((v.0, Declarator(v.1.chain, v.1.id, v.1.params))) && pos == v.1.pos && st == v.1.st
    case Err(m) => r == Err(m)
  }

  /** An entry made by `dclparam` or `decltn` agrees with its function. */
  predicate EAgrees(r: Result<nat>, st: St, s: Result<(St, nat)>) {
    match s
    case Ok(v) => r == Ok(v.1) && st == v.0
    case Err(m) => r == Err(m)
  }

  /** A declaration that returns nothing agrees with its function, which
      gives the new state and cursor. */
  predicate DeclAgrees(r: Result<()>, pos: nat, st: St, s: Result<(St, nat)>) {
    match s
    case Ok(v) => r.Ok? && st == v.0 && pos == v.1
    case Err(m) => r == Err(m)
  }

  /** The definitions collected so far in front of what the rest of the
      input gives. */
  function Then(fs: seq<FuncDef>, r: Result<seq<FuncDef>>): Result<seq<FuncDef>> {
    match r
    case Ok(rest) => Ok(fs + rest)
    case Err(m) => Err(m)
  }

  class Parser {
    const toks: seq<Token>
    var pos: nat
    var stack: nat
    const syms: SymTab
    const dialect: Dialect
    /** expr.c's global `head`, through which `arg_list` links the
        arguments of a call: the list its `next` field points at, `None`
        before the first call and while it points at the last argument of
        the list being built. */
    var head: Head

    /** The declaration state the parsing functions take. */
    function State(): St
      reads this, syms
    {
      St(syms.State(), stack)
    }

    ghost predicate Valid()
      reads this, syms
    {
      ValidTokens(toks) && pos < |toks| && Sound(State())
    }

    /** What the expression parsers need: the table is well formed. */
    ghost predicate Ready()
      reads this, syms
    {
      ValidTokens(toks) && pos < |toks| && WellFormed(syms.State())
    }

    /** A parser at the first token with the table of a fresh run. */
    constructor (ts: seq<Token>, d: Dialect)
      requires ValidTokens(ts)
      ensures Valid() && toks == ts && pos == 0 && dialect == d
      ensures State() == St(Initial(), 0) && fresh(syms)
    {
      toks := ts;
      pos := 0;
      stack := 0;
      dialect := d;
      head := None;
      syms := new SymTab();
    }

    // The token tests of decl.c.

    method Consume(op: string) returns (b: bool)
      requires Ready()
      modifies this
      ensures Ready() && stack == old(stack) && State() == old(State()) && head == old(head)
      ensures b == Consumes(toks[old(pos)], op)
      ensures pos == if b then old(pos) + 1 else old(pos)
    {
      b := Consumes(toks[pos], op);
      if b {
        pos := pos + 1;
      }
    }

    method ConsumeToken(kind: TokenKind) returns (b: bool)
      requires Ready() && kind != Eof
      modifies this
      ensures Ready() && stack == old(stack) && State() == old(State()) && head == old(head)
      ensures b == (toks[old(pos)].kind == kind)
      ensures pos == if b then old(pos) + 1 else old(pos)
    {
      b := toks[pos].kind == kind;
      if b {
        pos := pos + 1;
      }
    }

    method Expect(op: string) returns (r: Result<()>)
      requires Ready()
      modifies this
      ensures Ready() && stack == old(stack) && State() == old(State()) && head == old(head)
      ensures r == if Consumes(toks[old(pos)], op) then Ok(()) else Err(ExpectMsg(op))
      ensures pos == if r.Ok? then old(pos) + 1 else old(pos)
    {
      if !Consumes(toks[pos], op) {
        return Err(ExpectMsg(op));
      }
      pos := pos + 1;
      return Ok(());
    }

    method ExpectNumber() returns (r: Result<int>)
      requires Ready()
      modifies this
      ensures Ready() && stack == old(stack) && State() == old(State()) && head == old(head)
      ensures r == if toks[old(pos)].kind == Number then Ok(toks[old(pos)].val) else Err(NotANumber)
      ensures pos == if r.Ok? then old(pos) + 1 else old(pos)
    {
      if toks[pos].kind != Number {
        return Err(NotANumber);
      }
      r := Ok(toks[pos].val);
      pos := pos + 1;
    }

    // The expressions of expr.c. They read the table and move the cursor.

    method Expr() returns (r: Result<Node>)
      requires Ready()
      modifies this
      ensures Ready() && stack == old(stack) && State() == old(State())
      ensures HAgrees(r, pos, head, old(head), ParseExpr(toks, old(pos), syms.State(), dialect))
      decreases |toks| - pos, 9
    {
      r := Assign();
    }

    method Assign() returns (r: Result<Node>)
      requires Ready()
      modifies this
      ensures Ready() && stack == old(stack) && State() == old(State())
      ensures HAgrees(r, pos, head, old(head), ParseAssign(toks, old(pos), syms.State(), dialect))
      decreases |toks| - pos, 8
    {
      var left := Equality();
      if left.Err? { return Err(left.msg); }
      var b := Consume("=");
      if b {
        var right := Assign();
        if right.Err? { return Err(right.msg); }
        return Ok(Bin(Asgmt, TypeOf(left.value), left.value, right.value));
      }
      return left;
    }

    method Equality() returns (r: Result<Node>)
      requires Ready()
      modifies this
      ensures Ready() && stack == old(stack) && State() == old(State())
      ensures HAgrees(r, pos, head, old(head), ParseEquality(toks, old(pos), syms.State(), dialect))
      decreases |toks| - pos, 7
    {
      var left := Relational();
      if left.Err? { return Err(left.msg); }
      var ret := left.value;
      ghost var w := ParseRelational(toks, old(pos), syms.State(), dialect).value.2;
      while true
        invariant Ready() && stack == old(stack) && old(pos) < pos && head == Later(old(head), w)
        invariant ParseEquality(toks, old(pos), syms.State(), dialect) ==
          EqualityTail(toks, pos, syms.State(), dialect, ret, w)
        decreases |toks| - pos
      {
        var op := EqualityOperator();
        if op.None? { return Ok(ret); }
        ghost var p := pos;
        var right := Relational();
        if right.Err? { return Err(right.msg); }
        ret := Bin(op.value, Some(Int), ret, right.value);
        w := Later(w, ParseRelational(toks, p, syms.State(), dialect).value.2);
      }
    }

    /** The two `consume` tests of the `equality` loop, in their order. */
    method EqualityOperator() returns (op: Option<Op>)
      requires Ready()
      modifies this
      ensures Ready() && stack == old(stack) && State() == old(State()) && head == old(head)
      ensures op == EqualityOp(toks[old(pos)])
      ensures pos == if op.Some? then old(pos) + 1 else old(pos)
    {
      var b := Consume("==");
      if b { return Some(Eq); }
      b := Consume("!=");
      if b { return Some(Ne); }
      return None;
    }

    method Relational() returns (r: Result<Node>)
      requires Ready()
      modifies this
      ensures Ready() && stack == old(stack) && State() == old(State())
      ensures HAgrees(r, pos, head, old(head), ParseRelational(toks, old(pos), syms.State(), dialect))
      decreases |toks| - pos, 6
    {
      var first := Add();
      if first.Err? { return Err(first.msg); }
      var ret := first.value;
      ghost var w := ParseAdd(toks, old(pos), syms.State(), dialect).value.2;
      while true
        invariant Ready() && stack == old(stack) && old(pos) < pos && head == Later(old(head), w)
        invariant ParseRelational(toks, old(pos), syms.State(), dialect) ==
          RelationalTail(toks, pos, syms.State(), dialect, ret, w)
        decreases |toks| - pos
      {
        var op := RelationalOperator();
        if op.None? { return Ok(ret); }
        ghost var p := pos;
        var operand := Add();
        if operand.Err? { return Err(operand.msg); }
        ret := Compare(op.value, ret, operand.value);
        w := Later(w, ParseAdd(toks, p, syms.State(), dialect).value.2);
      }
    }

    /** The four `consume` tests of the `relational` loop, in their order. */
    method RelationalOperator() returns (op: Option<Op>)
      requires Ready()
      modifies this
      ensures Ready() && stack == old(stack) && State() == old(State()) && head == old(head)
      ensures op == RelationalOp(toks[old(pos)])
      ensures pos == if op.Some? then old(pos) + 1 else old(pos)
    {
      var b := Consume(">=");
      if b { return Some(Ge); }
      b := Consume("<=");
      if b { return Some(Le); }
      b := Consume(">");
      if b { return Some(Gt); }
      b := Consume("<");
      if b { return Some(Lt); }
      return None;
    }

    method Add() returns (r: Result<Node>)
      requires Ready()
      modifies this
      ensures Ready() && stack == old(stack) && State() == old(State())
      ensures HAgrees(r, pos, head, old(head), ParseAdd(toks, old(pos), syms.State(), dialect))
      decreases |toks| - pos, 5
    {
      var left := Mul();
      if left.Err? { return Err(left.msg); }
      var ret := left.value;
      ghost var w := ParseMul(toks, old(pos), syms.State(), dialect).value.2;
      while true
        invariant Ready() && stack == old(stack) && old(pos) < pos && head == Later(old(head), w)
        invariant ParseAdd(toks, old(pos), syms.State(), dialect) == AddTail(toks, pos, syms.State(), dialect, ret, w)
        decreases |toks| - pos
      {
        var op := AddOperator();
        if op.None? { return Ok(ret); }
        ghost var p := pos;
        var right := Mul();
        if right.Err? { return Err(right.msg); }
        var sum := AddNode(op.value, ret, right.value);
        if sum.Err? { return Err(sum.msg); }
        ret := sum.value;
        w := Later(w, ParseMul(toks, p, syms.State(), dialect).value.2);
      }
    }

    /** The two `consume` tests of the `add` loop, in their order. */
    method AddOperator() returns (op: Option<Op>)
      requires Ready()
      modifies this
      ensures Ready() && stack == old(stack) && State() == old(State()) && head == old(head)
      ensures op == AddOp(toks[old(pos)])
      ensures pos == if op.Some? then old(pos) + 1 else old(pos)
    {
      var b := Consume("+");
      if b { return Some(Op.Add); }
      b := Consume("-");
      if b { return Some(Sub); }
      return None;
    }

    method Mul() returns (r: Result<Node>)
      requires Ready()
      modifies this
      ensures Ready() && stack == old(stack) && State() == old(State())
      ensures HAgrees(r, pos, head, old(head), ParseMul(toks, old(pos), syms.State(), dialect))
      decreases |toks| - pos, 4
    {
      var left := Unary();
      if left.Err? { return Err(left.msg); }
      var ret := left.value;
      ghost var w := ParseUnary(toks, old(pos), syms.State(), dialect).value.2;
      while true
        invariant Ready() && stack == old(stack) && old(pos) < pos && head == Later(old(head), w)
        invariant ParseMul(toks, old(pos), syms.State(), dialect) == MulTail(toks, pos, syms.State(), dialect, ret, w)
        decreases |toks| - pos
      {
        var op := MulOperator();
        if op.None? { return Ok(ret); }
        ghost var p := pos;
        var right := Unary();
        if right.Err? { return Err(right.msg); }
        ret := Bin(op.value, TypeOf(ret), ret, right.value);
        w := Later(w, ParseUnary(toks, p, syms.State(), dialect).value.2);
      }
    }

    /** The two `consume` tests of the `mul` loop, in their order. */
    method MulOperator() returns (op: Option<Op>)
      requires Ready()
      modifies this
      ensures Ready() && stack == old(stack) && State() == old(State()) && head == old(head)
      ensures op == MulOp(toks[old(pos)])
      ensures pos == if op.Some? then old(pos) + 1 else old(pos)
    {
      var b := Consume("*");
      if b { return Some(Op.Mul); }
      b := Consume("/");
      if b { return Some(Div); }
      return None;
    }

    method Unary() returns (r: Result<Node>)
      requires Ready()
      modifies this
      ensures Ready() && stack == old(stack) && State() == old(State())
      ensures HAgrees(r, pos, head, old(head), ParseUnary(toks, old(pos), syms.State(), dialect))
      decreases |toks| - pos, 3
    {
      var b := ConsumeToken(Sizeof);
      if b {
        r := SizeofExpr();
        return;
      }
      b := Consume("*");
      if b {
        r := DerefExpr();
        return;
      }
      b := Consume("&");
      if b {
        r := AddrExpr();
        return;
      }
      b := Consume("+");
      if b {
        r := Primary();
        return;
      }
      b := Consume("-");
      if b {
        r := NegExpr();
        return;
      }
      r := Postfix();
    }

    /** The `sizeof` branch of `unary`, after the keyword. */
    method SizeofExpr() returns (r: Result<Node>)
      requires Ready()
      modifies this
      ensures Ready() && stack == old(stack) && State() == old(State())
      ensures HAgrees(r, pos, head, old(head), CExpr.SizeofExpr(toks, old(pos), syms.State(), dialect))
      decreases |toks| - pos, 11
    {
      var right := Unary();
      if right.Err? { return Err(right.msg); }
      var size := SizeOf(right.value);
      if size.Err? { return Err(size.msg); }
      return Ok(Num(size.value));
    }

    /** The `*` branch of `unary`, after the `*`. */
    method DerefExpr() returns (r: Result<Node>)
      requires Ready()
      modifies this
      ensures Ready() && stack == old(stack) && State() == old(State())
      ensures HAgrees(r, pos, head, old(head), CExpr.DerefExpr(toks, old(pos), syms.State(), dialect))
      decreases |toks| - pos, 11
    {
      var right := Unary();
      if right.Err? { return Err(right.msg); }
      var t := Typed(right.value);
      if t.Err? { return Err(t.msg); }
      var pointee := Deref(t.value);
      if pointee.Err? { return Err(pointee.msg); }
      return Ok(DerefNode(Some(pointee.value), right.value));
    }

    /** The `&` branch of `unary`, after the `&`. */
    method AddrExpr() returns (r: Result<Node>)
      requires Ready()
      modifies this
      ensures Ready() && stack == old(stack) && State() == old(State())
      ensures HAgrees(r, pos, head, old(head), CExpr.AddrExpr(toks, old(pos), syms.State(), dialect))
      decreases |toks| - pos, 11
    {
      var right := Unary();
      if right.Err? { return Err(right.msg); }
      var t := Typed(right.value);
      if t.Err? { return Err(t.msg); }
      return Ok(AddrNode(PtrTo(t.value), right.value));
    }

    /** The `-` branch of `unary`, after the `-`. */
    method NegExpr() returns (r: Result<Node>)
      requires Ready()
      modifies this
      ensures Ready() && stack == old(stack) && State() == old(State())
      ensures HAgrees(r, pos, head, old(head), CExpr.NegExpr(toks, old(pos), syms.State(), dialect))
      decreases |toks| - pos, 11
    {
      var right := Primary();
      if right.Err? { return Err(right.msg); }
      var t := Typed(right.value);
      if t.Err? { return Err(t.msg); }
      if !IsInt(t.value) { return Err(NotInt); }
      return Ok(Bin(Sub, Some(t.value), Num(0), right.value));
    }

    method Postfix() returns (r: Result<Node>)
      requires Ready()
      modifies this
      ensures Ready() && stack == old(stack) && State() == old(State())
      ensures HAgrees(r, pos, head, old(head), ParsePostfix(toks, old(pos), syms.State(), dialect))
      decreases |toks| - pos, 2
    {
      var first := Primary();
      if first.Err? { return Err(first.msg); }
      var p := first.value;
      ghost var w := ParsePrimary(toks, old(pos), syms.State(), dialect).value.2;
      while true
        invariant Ready() && stack == old(stack) && old(pos) < pos && head == Later(old(head), w)
        invariant ParsePostfix(toks, old(pos), syms.State(), dialect) == PostfixTail(toks, pos, syms.State(), dialect, p, w)
        decreases |toks| - pos
      {
        var b := Consume("[");
        if b {
          ghost var at := pos;
          ghost var acc := p;
          var s := Subscript(p);
          if s.Err? { return Err(s.msg); }
          p := s.value;
          w := Later(w, CExpr.Subscript(toks, at, syms.State(), dialect, acc).value.2);
          continue;
        }
        b := Consume("(");
        if b {
          r := CallSuffix(p);
          return;
        }
        return Ok(p);
      }
    }

    /** The `[` branch of the `postfix` loop, after the `[`. */
    method Subscript(p: Node) returns (r: Result<Node>)
      requires Ready()
      modifies this
      ensures Ready() && stack == old(stack) && State() == old(State())
      ensures HAgrees(r, pos, head, old(head), CExpr.Subscript(toks, old(pos), syms.State(), dialect, p))
      decreases |toks| - pos, 11
    {
      var q := Expr();
      if q.Err? { return Err(q.msg); }
      var e := Expect("]");
      if e.Err? { return Err(e.msg); }
      var sum := AddNode(Op.Add, p, q.value);
      if sum.Err? { return Err(sum.msg); }
      return Ok(DerefNode(PointeeOf(TypeOf(sum.value)), sum.value));
    }

    /** The `(` branch of the `postfix` loop, after the `(`. */
    method CallSuffix(p: Node) returns (r: Result<Node>)
      requires Ready()
      modifies this
      ensures Ready() && stack == old(stack) && State() == old(State())
      ensures HAgrees(r, pos, head, old(head), CExpr.CallSuffix(toks, old(pos), syms.State(), dialect, p))
      decreases |toks| - pos, 12
    {
      var args := ArgList(0);
      if args.Err? { return Err(args.msg); }
      if |args.value| > 0 && args.value[0].ireg > 6 { return Err(TooManyArgs); }
      var e := Expect(")");
      if e.Err? { return Err(e.msg); }
      var len := if |args.value| > 0 then LenField(args.value[0].node) else 0;
      return Ok(Call(CallName(p), len, args.value));
    }

    /** `primary`; `find_var` is the lookup from the innermost scope. */
    method Primary() returns (r: Result<Node>)
      requires Ready()
      modifies this
      ensures Ready() && stack == old(stack) && State() == old(State())
      ensures HAgrees(r, pos, head, old(head), ParsePrimary(toks, old(pos), syms.State(), dialect))
      decreases |toks| - pos, 1
    {
      var tok := toks[pos];
      var b := Consume("(");
      if b {
        var e := Expr();
        if e.Err? { return Err(e.msg); }
        var x := Expect(")");
        if x.Err? { return Err(x.msg); }
        return e;
      }
      if tok.kind == Ident {
        var v := syms.Lookup(tok.text, syms.identifiers);
        if v.None? {
          r := Ok(Name(tok.text, tok.len));
        } else {
          r := Ok(LVar(syms.vars[v.value].offset, syms.vars[v.value].ty));
        }
        b := ConsumeToken(Ident);
        return;
      }
      var n := ExpectNumber();
      if n.Err? { return Err(n.msg); }
      return Ok(Num(n.value));
    }

    /** `arg_list(depth)`: each argument is parsed once to move the cursor
        and parsed again from its first token to build the node; the last
        one then points `head.next` at itself. */
    method ArgList(depth: nat) returns (r: Result<seq<Arg>>)
      requires Ready()
      modifies this
      ensures Ready() && stack == old(stack) && State() == old(State())
      ensures LAgrees(r, pos, head, old(head), CExpr.ArgList(toks, old(pos), syms.State(), dialect, depth))
      decreases |toks| - pos, 11
    {
      var tok := pos;
      if Equal(toks[pos], ")") { return Ok([]); }
      var first := Expr();
      if first.Err? { return Err(first.msg); }
      var name := toks[tok].text;
      if !Equal(toks[pos], ",") {
        var car := Reparse(tok);
        head := None;
        var args := FrameEnd(depth, [Arg(car, depth + 1, name)]);
        return Ok(args);
      }
      var e := Expect(",");
      if e.Err? { return Err(e.msg); }
      var cdr := ArgList(depth + 1);
      if cdr.Err? { return Err(cdr.msg); }
      if |cdr.value| == 0 { return Err(MissingArgument); }
      var car := Reparse(tok);
      var args := FrameEnd(depth, cdr.value + [Arg(car, depth + 1, name)]);
      return Ok(args);
    }

    /** The return of a frame of `arg_list` whose own list is `own`: a
        deeper frame returns its own argument; the top frame returns
        `head.next`, which is `own` while it still points at the last
        argument. */
    method FrameEnd(depth: nat, own: seq<Arg>) returns (args: seq<Arg>)
      modifies this
      ensures pos == old(pos) && stack == old(stack)
      ensures args == FrameResult(dialect, depth, own, pos, old(head)).0
      ensures head == FrameResult(dialect, depth, own, pos, old(head)).2
    {
      if depth > 0 { return own; }
      if head.None? {
        head := Some(own);
      }
      if dialect == AsWritten {
        return head.value;
      }
      return own;
    }

    /** `expr(&tok)` on a private cursor: the expression at `from` parsed
        again, leaving the parser's cursor where it was. */
    method Reparse(from: nat) returns (n: Node)
      requires Ready() && from < |toks| && ParseExpr(toks, from, syms.State(), dialect).Ok?
      modifies this
      ensures Ready() && stack == old(stack) && pos == old(pos)
      ensures n == ParseExpr(toks, from, syms.State(), dialect).value.0
      ensures head == Later(old(head), ParseExpr(toks, from, syms.State(), dialect).value.2)
      decreases |toks| - from, 10
    {
      var rest := pos;
      pos := from;
      var e := Expr();
      n := e.value;
      pos := rest;
    }

    // The declarations of decl.c. They enter names in the table, open
    // parameter scopes and grow the stack.

    /** `set_offset(p)`. */
    method SetOffset(p: nat)
      requires Valid() && p < |syms.vars|
      modifies this, syms
      ensures Valid() && pos == old(pos)
      ensures State() == CDecltr.SetOffset(old(State()), p)
    {
      stack := stack + RoundUp(StoredSize(syms.vars[p].ty));
      syms.SetOffset(p, stack);
    }

    /** `decltn_spcf`, which is `type_spcf`. */
    method TypeSpcf() returns (r: Result<Type>)
      requires Valid()
      modifies this
      ensures Valid() && stack == old(stack)
      ensures r == CDecltr.TypeSpcf(toks[old(pos)])
      ensures pos == if r.Ok? then old(pos) + 1 else old(pos)
    {
      if Equal(toks[pos], "char") {
        pos := pos + 1;
        return Ok(Char);
      } else if Equal(toks[pos], "int") {
        pos := pos + 1;
        return Ok(Int);
      }
      return Err(NoTypeSpecifier);
    }

    /** `decltr`: the chain `decltr1` leaves, walked from its outermost
        node, each node wrapping the base type. */
    method Decltr(base: Type, rec: bool, params: Option<seq<nat>>) returns (r: Result<(Type, Declarator)>)
      requires Valid()
      modifies this, syms
      ensures Valid()
      ensures TAgrees(r, pos, State(), CDecltr.Decltr(toks, old(pos), old(State()), base, rec, params, dialect))
      decreases |toks| - pos, 3
    {
      var d := Decltr1(rec, params);
      if d.Err? { return Err(d.msg); }
      var chain := d.value.chain;
      var ty := base;
      var k := 0;
      while k < |chain|
        invariant 0 <= k <= |chain|
        invariant Wrap(chain, base) == Wrap(chain[k..], ty)
      {
        assert chain[k..][1..] == chain[k + 1..];
        match chain[k] {
          case PtrLayer => ty := PtrTo(ty);
          case FuncLayer => ty := Function(ty);
          case ArrayLayer(n) => ty := Array(ty, n);
        }
        k := k + 1;
      }
      assert chain[k..] == [];
      return Ok((ty, d.value));
    }

    /** `decltr1`. */
    method Decltr1(rec: bool, params: Option<seq<nat>>) returns (r: Result<Declarator>)
      requires Valid()
      modifies this, syms
      ensures Valid()
      ensures DAgrees(r, pos, State(), CDecltr.Decltr1(toks, old(pos), old(State()), rec, params, dialect))
      decreases |toks| - pos, 1
    {
      var tok := toks[pos];
      var b := Consume("(");
      if b {
        r := Nested(rec, params);
        return;
      }
      b := Consume("*");
      if b {
        r := Pointer(rec, params);
        return;
      }
      b := ConsumeToken(Ident);
      if b {
        r := Suffixes(rec, Declarator([], Some(tok.text), params));
      } else {
        r := Ok(Declarator([], None, params));
      }
    }

    /** The `(` branch of `decltr1`. */
    method Nested(rec: bool, params: Option<seq<nat>>) returns (r: Result<Declarator>)
      requires Valid()
      modifies this, syms
      ensures Valid()
      ensures DAgrees(r, pos, State(), CDecltr.Nested(toks, old(pos), old(State()), rec, params, dialect))
      decreases |toks| - pos, 2
    {
      var inner := Decltr1(rec, params);
      if inner.Err? { return inner; }
      var e := Expect(")");
      if e.Err? { return Err(e.msg); }
      if dialect == AsWritten { return inner; }
      r := Suffixes(rec, inner.value);
    }

    /** The `*` branch of `decltr1`. */
    method Pointer(rec: bool, params: Option<seq<nat>>) returns (r: Result<Declarator>)
      requires Valid()
      modifies this, syms
      ensures Valid()
      ensures DAgrees(r, pos, State(), CDecltr.Pointer(toks, old(pos), old(State()), rec, params, dialect))
      decreases |toks| - pos, 2
    {
      var inner := Decltr1(rec, params);
      if inner.Err? { return inner; }
      r := Suffixes(rec, inner.value.(chain := [PtrLayer] + inner.value.chain));
    }

    /** The suffix loop of `decltr1`. */
    method Suffixes(rec: bool, inner: Declarator) returns (r: Result<Declarator>)
      requires Valid()
      modifies this, syms
      ensures Valid()
      ensures DAgrees(r, pos, State(),
        CDecltr.Suffixes(toks, old(pos), old(State()), rec, inner.params, inner.chain, inner.id, dialect))
      decreases |toks| - pos, 1
    {
      var chain := inner.chain;
      var params := inner.params;
      while Equal(toks[pos], "(") || Equal(toks[pos], "[")
        invariant Valid() && old(pos) <= pos
        invariant CDecltr.Suffixes(toks, old(pos), old(State()), rec, inner.params, inner.chain, inner.id, dialect)
               == CDecltr.Suffixes(toks, pos, State(), rec, params, chain, inner.id, dialect)
        decreases |toks| - pos
      {
        var s := Suffix();
        if s.Err? { return Err(s.msg); }
        if rec && params.None? {
          params := s.value.1;
        }
        chain := [s.value.0] + chain;
      }
      return Ok(Declarator(chain, inner.id, params));
    }

    /** One suffix: `(` and the parameters, or `[` number `]`. */
    method Suffix() returns (r: Result<(Layer, Option<seq<nat>>)>)
      requires Valid() && (Equal(toks[pos], "(") || Equal(toks[pos], "["))
      modifies this, syms
      ensures Valid()
      ensures SAgrees(r, pos, State(), CDecltr.Suffix(toks, old(pos), old(State()), dialect))
      decreases |toks| - pos, 0
    {
      var b := Consume("(");
      if b {
        syms.EnterScope();
        var level := syms.GetLevel();
        if level > PARAM {
          syms.EnterScope();
        }
        var args := Parameters();
        if args.Err? { return Err(args.msg); }
        return Ok((FuncLayer, args.value));
      }
      b := Consume("[");
      var n := ExpectNumber();
      if n.Err? { return Err(n.msg); }
      var e := Expect("]");
      if e.Err? { return Err(e.msg); }
      return Ok((ArrayLayer(n.value), None));
    }

    /** `parameters`: the parameter list when a type name starts it, then
        `)`. */
    method Parameters() returns (r: Result<Option<seq<nat>>>)
      requires Valid()
      modifies this, syms
      ensures Valid()
      ensures SAgrees(r, pos, State(), CDecltr.Parameters(toks, old(pos), old(State()), dialect))
      decreases |toks| - pos, 3
    {
      var params: Option<seq<nat>> := None;
      if toks[pos].kind == TypeName {
        var list := ParamList();
        if list.Err? { return Err(list.msg); }
        params := Some(list.value);
      }
      var e := Expect(")");
      if e.Err? { return Err(e.msg); }
      return Ok(params);
    }

    /** The loop of `parameters`, its first pass written before it: each
        parameter is entered and collected while a `,` follows. */
    method ParamList() returns (r: Result<seq<nat>>)
      requires Valid()
      modifies this, syms
      ensures Valid()
      ensures SAgrees(r, pos, State(), CDecltr.ParamList(toks, old(pos), old(State()), [], dialect))
      decreases |toks| - pos, 2
    {
      var p := Param();
      if p.Err? { return Err(p.msg); }
      var list: seq<nat> := [p.value];
      assert [] + list == list;
      while Equal(toks[pos], ",")
        invariant Valid() && old(pos) < pos
        invariant forall k :: 0 <= k < |list| ==> list[k] < |syms.vars|
        invariant CDecltr.ParamList(toks, old(pos), old(State()), [], dialect)
               == CDecltr.MoreParams(toks, pos, State(), list, dialect)
        decreases |toks| - pos
      {
        var b := Consume(",");
        p := Param();
        if p.Err? { return Err(p.msg); }
        list := list + [p.value];
      }
      return Ok(list);
    }

    /** One pass of the loop of `parameters`: a type name, then the
        declarator and its entry. */
    method Param() returns (r: Result<nat>)
      requires Valid()
      modifies this, syms
      ensures Valid()
      ensures SAgrees(r, pos, State(), CDecltr.Param(toks, old(pos), old(State()), dialect))
      decreases |toks| - pos, 1
    {
      if toks[pos].kind != TypeName { return Err(MissingParamType); }
      var spcf := TypeSpcf();
      if spcf.Err? { return Err(spcf.msg); }
      r := ParamDecl(spcf.value);
    }

    /** A parameter's declarator and `dclparam`. */
    method ParamDecl(spcf: Type) returns (r: Result<nat>)
      requires Valid()
      modifies this, syms
      ensures Valid()
      ensures SAgrees(r, pos, State(), CDecltr.ParamDecl(toks, old(pos), old(State()), spcf, dialect))
      decreases |toks| - pos, 4
    {
      var d := Decltr(spcf, false, None);
      if d.Err? { return Err(d.msg); }
      r := DclParam(d.value.1.id, d.value.0);
    }

    /** `dclparam`. */
    method DclParam(id: Option<string>, ty: Type) returns (r: Result<nat>)
      requires Valid()
      modifies this, syms
      ensures Valid() && pos == old(pos)
      ensures EAgrees(r, State(), CDecltr.DclParam(old(State()), id, ty))
    {
      if id.None? { return Err(NoIdentifier); }
      var t := ty;
      if IsFunc(t) {
        t := PtrTo(t);
      } else if IsArray(t) {
        t := Atop(t).value;
      }
      var found := syms.Lookup(id.value, syms.identifiers);
      if found.Some? && syms.vars[found.value].scope == syms.level {
        return Err(Duplicate(id.value));
      }
      InstalledKeeps(syms.State(), id.value, false, syms.level, t);
      var p := syms.Install(id.value, false, syms.level, t);
      SetOffset(p);
      DefinedKeeps(syms.State(), p);
      syms.SetDefined(p);
      return Ok(p);
    }

    /** `decltn`. */
    method Decltn(id: Option<string>, ty: Type) returns (r: Result<nat>)
      requires Valid()
      modifies this, syms
      ensures Valid() && pos == old(pos)
      ensures EAgrees(r, State(), CDecltr.Decltn(old(State()), id, ty))
    {
      if id.None? { return Err(NoIdentifier); }
      var found := syms.Lookup(id.value, syms.identifiers);
      var level := syms.GetLevel();
      if found.None? && level == GLOBAL {
        InstalledKeeps(syms.State(), id.value, true, GLOBAL, ty);
        var p := syms.Install(id.value, true, GLOBAL, ty);
        r := Ok(p);
      } else if found.None? || syms.vars[found.value].scope < level {
        InstalledKeeps(syms.State(), id.value, false, level, ty);
        var p := syms.Install(id.value, false, level, ty);
        SetOffset(p);
        r := Ok(p);
      } else {
        r := Err(Redeclaration);
      }
    }

    /** The declarator loop of `ex_decltn`: `decltn` of the first
        declarator's name and type, then again after each `,`, then `;`.
        The loop is entered after the first `decltn`, so that each pass
        starts at the test for `,`. */
    method Declarations(id: Option<string>, ty: Type) returns (r: Result<()>)
      requires Valid()
      modifies this, syms
      ensures Valid()
      ensures DeclAgrees(r, pos, State(), CDecltr.Declarations(toks, old(pos), old(State()), id, ty))
    {
      var p := Decltn(id, ty);
      if p.Err? { return Err(p.msg); }
      while true
        invariant Valid() && old(pos) <= pos
        invariant CDecltr.Declarations(toks, old(pos), old(State()), id, ty)
               == NextDeclarator(toks, pos, State(), id, ty)
        decreases |toks| - pos
      {
        var b := Consume(",");
        if !b {
          break;
        }
        p := Decltn(id, ty);
        if p.Err? { return Err(p.msg); }
      }
      var e := Expect(";");
      if e.Err? { return Err(e.msg); }
      return Ok(());
    }

    /** `ex_decltn` below file level, which is how `cmp_stmt` and
        `stmt_lst` call it: a type specifier, a declarator and the
        declarator loop. */
    method LocalDecl() returns (r: Result<()>)
      requires Valid()
      modifies this, syms
      ensures Valid()
      ensures DeclAgrees(r, pos, State(), CDecltr.LocalDecl(toks, old(pos), old(State()), dialect))
    {
      var spcf := TypeSpcf();
      if spcf.Err? { return Err(spcf.msg); }
      var d := Decltr(spcf.value, false, None);
      if d.Err? { return Err(d.msg); }
      r := Declarations(d.value.1.id, d.value.0);
    }

    /** `ex_decltn`. */
    method ExDecltn() returns (r: Result<Option<FuncDef>>)
      requires Valid()
      modifies this, syms
      ensures Valid()
      ensures SAgrees(r, pos, State(), CStmt.ExDecltn(toks, old(pos), old(State()), dialect))
    {
      var level := syms.GetLevel();
      if level != GLOBAL {
        var e := LocalDecl();
        r := if e.Err? then Err(e.msg) else Ok(None);
      } else {
        r := FileExDecltn();
      }
    }

    /** `ex_decltn` at file level: the stack size is reset, the file scope
        becomes the innermost, and the first declarator is parsed
        recording its parameters. */
    method FileExDecltn() returns (r: Result<Option<FuncDef>>)
      requires Valid() && syms.level == GLOBAL
      modifies this, syms
      ensures Valid()
      ensures SAgrees(r, pos, State(), CStmt.ExDecltn(toks, old(pos), old(State()), dialect))
    {
      var ty := TypeSpcf();
      if ty.Err? { return Err(ty.msg); }
      stack := 0;
      syms.UseFileScope();
      var d := Decltr(ty.value, true, None);
      if d.Err? { return Err(d.msg); }
      r := FileDecltn(d.value.1.id, d.value.0, d.value.1.params);
    }

    /** The rest of `ex_decltn` at file level: a function definition, which
        gets the final stack size, or the declarator loop. */
    method FileDecltn(id: Option<string>, ty: Type, params: Option<seq<nat>>) returns (r: Result<Option<FuncDef>>)
      requires Valid()
      modifies this, syms
      ensures Valid()
      ensures SAgrees(r, pos, State(), CStmt.FileDecltn(toks, old(pos), old(State()), id, ty, params, dialect))
    {
      if Equal(toks[pos], "{") {
        var f := FuncDefn(id, ty, params);
        if f.Err? { return Err(f.msg); }
        return Ok(Some(f.value.(stackSize := stack)));
      }
      var e := Declarations(id, ty);
      if e.Err? { return Err(e.msg); }
      return Ok(None);
    }

    /** The checks `func_defn` makes before the body: the parameters
        counted, more than six refused, a `main` with parameters whose
        return type is not `int` refused, and a visible function of the
        same name marked defined refused. */
    method DefnCheck(id: Option<string>, fty: Type, params: Option<seq<nat>>) returns (e: Option<string>, n: nat)
      requires Valid()
      ensures e == DefnError(syms.State(), id, fty, if params.Some? then |params.value| else 0)
      ensures e.None? ==> n == if params.Some? then |params.value| else 0
    {
      var rty := ReturnType(fty);
      n := 0;
      if params.Some? {
        while n < |params.value|
          invariant n <= |params.value| && n <= 6
        {
          n := n + 1;
          if n > 6 { return Some(TooManyParams), n; }
        }
      }
      if id.None? { return Some(NoIdentifier), n; }
      var name := id.value;
      if params.Some? {
        var i := 0;
        while i < n
          invariant 0 <= i <= n
          invariant 0 < i ==> !(name == "main" && !rty.Int?)
        {
          if name == "main" && !rty.Int? {
            return Some(NonAnsi(name)), n;
          }
          i := i + 1;
        }
      }
      var p := syms.Lookup(name, syms.identifiers);
      if p.Some? && IsFunc(syms.vars[p.value].ty) && syms.vars[p.value].defined {
        return Some(Redefinition(name)), n;
      }
      return None, n;
    }

    /** `func_defn`: as written the `{` is consumed here; the checks, the
        body, an optional `}`, and the record of the function, whose
        locals are the entries of the innermost scope once the body is
        closed. */
    method FuncDefn(id: Option<string>, fty: Type, params: Option<seq<nat>>) returns (r: Result<FuncDef>)
      requires Valid()
      modifies this, syms
      ensures Valid()
      ensures SAgrees(r, pos, State(), CStmt.FuncDefn(toks, old(pos), old(State()), id, fty, params, dialect))
    {
      if dialect == AsWritten {
        var b := Consume("{");
      }
      var e, n := DefnCheck(id, fty, params);
      if e.Some? { return Err(e.value); }
      var code := CmpStmt();
      if code.Err? { return Err(code.msg); }
      var b := Consume("}");
      var locals := syms.frames[syms.identifiers].entries;
      var globals := syms.frames[syms.globals].entries;
      return Ok(FuncDef(id.value, code.value, locals, params, n, globals, 0));
    }

    // The statements of stmt.c.

    /** `stmt`. */
    method Stmt() returns (r: Result<Node>)
      requires Valid()
      modifies this, syms
      ensures Valid()
      ensures SAgrees(r, pos, State(), ParseStmt(toks, old(pos), old(State()), dialect))
      decreases |toks| - pos, 2
    {
      if Equal(toks[pos], "{") {
        EqualConsumes(toks, pos, "{");
        r := CmpStmt();
      } else if toks[pos].kind == If {
        r := SelectStmt();
      } else if toks[pos].kind == Return {
        r := JumpStmt();
      } else if toks[pos].kind == While || toks[pos].kind == For {
        r := IterStmt();
      } else {
        r := ExprStatement();
      }
    }

    /** `expr_stmt`. */
    method ExprStatement() returns (r: Result<Node>)
      requires Valid()
      modifies this
      ensures Valid()
      ensures SAgrees(r, pos, State(), CStmt.ExprStatement(toks, old(pos), old(State()), dialect))
    {
      var b := Consume(";");
      if b {
        return Ok(ExprStmt(NullStmt));
      }
      var e := Expr();
      if e.Err? { return Err(e.msg); }
      var x := Expect(";");
      if x.Err? { return Err(x.msg); }
      return Ok(ExprStmt(e.value));
    }

    /** `cmp_stmt`: an optional `{`, a new level and an optional
        declaration; the rest is `BlockBody`. */
    method CmpStmt() returns (r: Result<Node>)
      requires Valid()
      modifies this, syms
      ensures Valid()
      ensures SAgrees(r, pos, State(), CStmt.CmpStmt(toks, old(pos), old(State()), dialect))
      decreases |toks| - pos, if Consumes(toks[pos], "{") then 1 else 5
    {
      var b := Consume("{");
      syms.EnterScope();
      if toks[pos].kind == TypeName {
        var e := LocalDecl();
        if e.Err? { return Err(e.msg); }
      }
      r := BlockBody();
    }

    /** The rest of `cmp_stmt`: an empty block or a statement list and `}`;
        the scope is left when the level is that of a function body or
        deeper. */
    method BlockBody() returns (r: Result<Node>)
      requires Valid()
      modifies this, syms
      ensures Valid()
      ensures SAgrees(r, pos, State(), CStmt.BlockBody(toks, old(pos), old(State()), dialect))
      decreases |toks| - pos, 4
    {
      if Equal(toks[pos], "}") {
        var level := syms.GetLevel();
        if level >= LOCAL {
          syms.ExitScope();
        }
        if dialect == Corrected {
          var b := Consume("}");
        }
        return Ok(Block([NullStmt]));
      }
      var list := StmtLst();
      if list.Err? { return Err(list.msg); }
      var e := Expect("}");
      if e.Err? || |list.value| == 0 { return Err(ExpectMsg("}")); }
      var level := syms.GetLevel();
      if level >= LOCAL {
        syms.ExitScope();
      }
      return Ok(Block(list.value));
    }

    /** `stmt_lst`. */
    method StmtLst() returns (r: Result<seq<Node>>)
      requires Valid()
      modifies this, syms
      ensures Valid()
      ensures SAgrees(r, pos, State(), StmtList(toks, old(pos), old(State()), dialect))
      decreases |toks| - pos, 3
    {
      if toks[pos].kind == Eof || StartsWith(toks[pos].text, "}") {
        return Ok([]);
      }
      if toks[pos].kind == TypeName {
        var e := LocalDecl();
        if e.Err? { return Err(e.msg); }
      }
      var car := Stmt();
      if car.Err? { return Err(car.msg); }
      var cdr := StmtLst();
      if cdr.Err? { return Err(cdr.msg); }
      return Ok([car.value] + cdr.value);
    }

    /** `select_stmt`. */
    method SelectStmt() returns (r: Result<Node>)
      requires Valid() && toks[pos].kind == If
      modifies this, syms
      ensures Valid()
      ensures SAgrees(r, pos, State(), CStmt.SelectStmt(toks, old(pos), old(State()), dialect))
      decreases |toks| - pos, 1
    {
      var b := ConsumeToken(If);
      var e := Expect("(");
      if e.Err? { return Err(e.msg); }
      var cond := Expr();
      if cond.Err? { return Err(cond.msg); }
      e := Expect(")");
      if e.Err? { return Err(e.msg); }
      r := IfArms(cond.value);
    }

    /** The statements of `select_stmt`. */
    method IfArms(cond: Node) returns (r: Result<Node>)
      requires Valid()
      modifies this, syms
      ensures Valid()
      ensures SAgrees(r, pos, State(), CStmt.IfArms(toks, old(pos), old(State()), cond, dialect))
      decreases |toks| - pos, 3
    {
      var body := Stmt();
      if body.Err? { return Err(body.msg); }
      r := ElseArm(cond, body.value);
    }

    /** An `else` and its statement, if the keyword follows. */
    method ElseArm(cond: Node, body: Node) returns (r: Result<Node>)
      requires Valid()
      modifies this, syms
      ensures Valid()
      ensures SAgrees(r, pos, State(), CStmt.ElseArm(toks, old(pos), old(State()), cond, body, dialect))
      decreases |toks| - pos, 0
    {
      var b := ConsumeToken(Else);
      if !b {
        return Ok(IfStmt(cond, body, None));
      }
      var e := Stmt();
      if e.Err? { return Err(e.msg); }
      return Ok(IfStmt(cond, body, Some(e.value)));
    }

    /** One clause of a `for` header. */
    method Clause(close: string) returns (r: Result<Option<Node>>)
      requires Ready()
      modifies this
      ensures Ready() && stack == old(stack) && State() == old(State())
      ensures Agrees(r, pos, CStmt.Clause(toks, old(pos), syms.State(), dialect, close))
    {
      var b := Consume(close);
      if b {
        return Ok(None);
      }
      var e := Expr();
      if e.Err? { return Err(e.msg); }
      var x := Expect(close);
      if x.Err? { return Err(x.msg); }
      return Ok(Some(e.value));
    }

    /** `iter_stmt`. */
    method IterStmt() returns (r: Result<Node>)
      requires Valid() && (toks[pos].kind == While || toks[pos].kind == For)
      modifies this, syms
      ensures Valid()
      ensures SAgrees(r, pos, State(), CStmt.IterStmt(toks, old(pos), old(State()), dialect))
      decreases |toks| - pos, 1
    {
      ghost var p0, st0 := pos, State();
      var isWhile := ConsumeToken(While);
      if !isWhile {
        var b := ConsumeToken(For);
      }
      var e := Expect("(");
      if e.Err? { return Err(e.msg); }
      assert pos == p0 + 2 && State() == st0;
      IterOpened(toks, p0, st0, dialect);
      if isWhile {
        r := WhileLoop();
      } else {
        r := ForLoop();
      }
    }

    /** The rest of a `while`. */
    method WhileLoop() returns (r: Result<Node>)
      requires Valid()
      modifies this, syms
      ensures Valid()
      ensures SAgrees(r, pos, State(), CStmt.WhileLoop(toks, old(pos), old(State()), dialect))
      decreases |toks| - pos, 0
    {
      var cond := Expr();
      if cond.Err? { return Err(cond.msg); }
      var e := Expect(")");
      if e.Err? { return Err(e.msg); }
      var body := Stmt();
      if body.Err? { return Err(body.msg); }
      return Ok(WhileStmt(cond.value, body.value));
    }

    /** The rest of a `for`. */
    method ForLoop() returns (r: Result<Node>)
      requires Valid()
      modifies this, syms
      ensures Valid()
      ensures SAgrees(r, pos, State(), CStmt.ForLoop(toks, old(pos), old(State()), dialect))
      decreases |toks| - pos, 0
    {
      var init := Clause(";");
      if init.Err? { return Err(init.msg); }
      var cond := Clause(";");
      if cond.Err? { return Err(cond.msg); }
      var step := Clause(")");
      if step.Err? { return Err(step.msg); }
      var body := Stmt();
      if body.Err? { return Err(body.msg); }
      var initialization := if init.value.Some? then Some(ExprStmt(init.value.value)) else None;
      return Ok(ForStmt(initialization, cond.value, step.value, body.value));
    }

    /** `jump_stmt`. */
    method JumpStmt() returns (r: Result<Node>)
      requires Valid() && toks[pos].kind == Return
      modifies this
      ensures Valid()
      ensures SAgrees(r, pos, State(), CStmt.JumpStmt(toks, old(pos), old(State()), dialect))
    {
      var b := ConsumeToken(Return);
      b := Consume(";");
      if b {
        return Ok(ReturnStmt(NullStmt));
      }
      var e := Expr();
      if e.Err? { return Err(e.msg); }
      var x := Expect(";");
      if x.Err? { return Err(x.msg); }
      return Ok(ReturnStmt(e.value));
    }

    /** One pass of the loop of `trns_unit`: the level is reset to file
        level and an external declaration parsed. */
    method NextDefinition() returns (r: Result<Option<FuncDef>>)
      requires Valid() && toks[pos].kind != Eof
      modifies this, syms
      ensures Valid() && (r.Ok? ==> old(pos) < pos)
      ensures r.Err? ==> Definitions(toks, old(pos), old(State()), dialect) == Err(r.msg)
      ensures r.Ok? ==> Definitions(toks, old(pos), old(State()), dialect)
                        == Then(if r.value.Some? then [r.value.value] else [], Definitions(toks, pos, State(), dialect))
    {
      ghost var st := State();
      assert Definitions(toks, pos, st, dialect) == ExternalDefinition(toks, pos, St(Reset(st.tab), st.stack), dialect);
      syms.InitScope();
      r := ExDecltn();
    }

    /** The copy at the end of `trns_unit`: slot `i` of the function vector
        gets the element `n - i - 1` of the list's vector. */
    method LastFirst(temp: array<Option<FuncDef>>, n: nat, ghost items: seq<FuncDef>) returns (flist: seq<FuncDef>)
      requires n == |items| && temp[..] == Slots(items)
      ensures flist == Reverse(items)
    {
      flist := [];
      var i := 0;
      while i < n
        invariant 0 <= i <= n && |flist| == i
        invariant forall k :: 0 <= k < i ==> flist[k] == items[n - 1 - k]
      {
        assert temp[n - i - 1] == Slots(items)[n - i - 1];
        flist := flist + [temp[n - i - 1].value];
        i := i + 1;
      }
    }

    /** The loop body of `trns_unit`: one pass, and a definition it
        parses appended to the list. */
    method Pass(lib: ListLib<FuncDef>, list: Cell?<FuncDef>, ghost cells: seq<Cell<FuncDef>>, ghost items: seq<FuncDef>)
      returns (r: Result<()>, list': Cell?<FuncDef>, ghost cells': seq<Cell<FuncDef>>, ghost items': seq<FuncDef>)
      requires Valid() && toks[pos].kind != Eof && Ring(list, cells, items)
      modifies this, syms, lib, list
      ensures Valid() && Ring(list', cells', items') && (list' == list || fresh(list'))
      ensures r.Ok? ==> old(pos) < pos
      ensures r.Err? ==> Then(items, Definitions(toks, old(pos), old(State()), dialect)) == Err(r.msg)
      ensures r.Ok? ==> Then(items, Definitions(toks, old(pos), old(State()), dialect))
                        == Then(items', Definitions(toks, pos, State(), dialect))
    {
      var car := NextDefinition();
      list', cells', items' := list, cells, items;
      if car.Err? { return Err(car.msg), list', cells', items'; }
      ghost var found := if car.value.Some? then [car.value.value] else [];
      ThenThen(items, found, Definitions(toks, pos, State(), dialect));
      if car.value.Some? {
        list', cells' := lib.Append(car.value.value, list, cells, items);
      }
      items' := items + found;
      r := Ok(());
    }

    /** `trns_unit`: up to the end of input, the level is reset and an
        external declaration parsed, each definition appended to a list.c
        list; the list is then turned into a vector and copied last first. */
    method TrnsUnit() returns (r: Result<Code>)
      requires Valid() && pos == 0 && State() == St(Initial(), 0)
      modifies this, syms
      ensures r == CStmt.TrnsUnit(toks, dialect)
    {
      var lib := new ListLib<FuncDef>();
      var list: Cell?<FuncDef> := null;
      ghost var cells: seq<Cell<FuncDef>> := [];
      ghost var items: seq<FuncDef> := [];
      ghost var all := Definitions(toks, 0, St(Initial(), 0), dialect);
      ThenNothing(all);
      while true
        invariant Valid() && fresh(lib)
        invariant Ring(list, cells, items) && (list != null ==> fresh(list))
        invariant all == Then(items, Definitions(toks, pos, State(), dialect))
        decreases |toks| - pos
      {
        if toks[pos].kind == Eof {
          break;
        }
        var e;
        e, list, cells, items := Pass(lib, list, cells, items);
        if e.Err? { return Err(e.msg); }
      }
      assert items + [] == items;
      var code := Collected(lib, list, cells, items);
      return Ok(code);
    }

    /** The end of `trns_unit`: the list's length, its vector, and the
        function vector filled from it last first. */
    method Collected(lib: ListLib<FuncDef>, list: Cell?<FuncDef>, ghost cells: seq<Cell<FuncDef>>, ghost items: seq<FuncDef>)
      returns (code: Code)
      requires Ring(list, cells, items)
      ensures code == Code(Reverse(items), |items|)
    {
      var n := lib.Length(list, cells, items);
      var v := new ListVar(list);
      var temp := lib.Ltov(v, cells, items);
      var flist := LastFirst(temp, n, items);
      return Code(flist, n);
    }
  }

  /** After `while (` or `for (`, `iter_stmt` is the loop's own rest. */
  lemma IterOpened(ts: seq<Token>, i: nat, st: St, d: Dialect)
    requires ValidTokens(ts) && i + 2 < |ts| && Sound(st) && (ts[i].kind == While || ts[i].kind == For)
    requires Consumes(ts[i + 1], "(")
    ensures CStmt.IterStmt(ts, i, st, d) ==
      if ts[i].kind == While then CStmt.WhileLoop(ts, i + 2, st, d) else CStmt.ForLoop(ts, i + 2, st, d)
  {
  }

  lemma ThenNothing(r: Result<seq<FuncDef>>)
    ensures Then([], r) == r
  {
    if r.Ok? {
      assert [] + r.value == r.value;
    }
  }

  lemma ThenThen(fs: seq<FuncDef>, gs: seq<FuncDef>, r: Result<seq<FuncDef>>)
    ensures Then(fs, Then(gs, r)) == Then(fs + gs, r)
  {
    if r.Ok? {
      assert fs + (gs + r.value) == (fs + gs) + r.value;
    }
  }
}
