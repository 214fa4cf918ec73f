/// Properties of the calculator grammar: every tree comes back from the token
/// sequence that prints it fully parenthesised, `*` binds tighter than `+`,
/// `-` groups to the left, and `a > b` is built with its operands swapped.

module CalcParseProps {
  import opened Util
  import opened CalcLex
  import opened BinOps
  import opened CalcParse

  function OpText(op: BinOp): string {
    match op
    case Add => "+"
    case Sub => "-"
    case Mul => "*"
    case Div => "/"
    case Eq => "=="
    case Ne => "!="
    case Gt => ">"
    case Ge => ">="
    case Lt => "<"
    case Le => "<="
  }

  /** A symbol token spelling exactly `text`. */
  function Sym(text: string): Token { Token(Reserved, 0, text, |text|) }

  /** A number token. The parser reads only its kind and value; the spelling
      is that of the magnitude, since the tokenizer reads no sign. */
  function NumTok(v: int): Token {
    var d := DecimalString(if v < 0 then -v else v);
    Token(Number, v, d, |d|)
  }

  /** Fully parenthesised tokens of a tree, in source order: `>` and `>=`
      print their right operand first. */
  function Print(n: Node): seq<Token>
  {
    match n
    case Num(v) => [NumTok(v)]
    case Bin(op, l, r) =>
      if op == Gt || op == Ge then [Sym("(")] + Print(r) + [Sym(OpText(op))] + Print(l) + [Sym(")")]
      else [Sym("(")] + Print(l) + [Sym(OpText(op))] + Print(r) + [Sym(")")]
  }

  /** The tokens between the parentheses of a printed `Bin(op, l, r)`. */
  function Inner(op: BinOp, l: Node, r: Node): seq<Token>
  {
    if op == Gt || op == Ge then Print(r) + [Sym(OpText(op))] + Print(l)
    else Print(l) + [Sym(OpText(op))] + Print(r)
  }

  /** `ts` holds `p` starting at index `i`. */
  predicate At(ts: seq<Token>, i: nat, p: seq<Token>) {
    i + |p| <= |ts| && forall m :: 0 <= m < |p| ==> ts[i + m] == p[m]
  }

  lemma AtSplit(ts: seq<Token>, i: nat, a: seq<Token>, b: seq<Token>)
    requires At(ts, i, a + b)
    ensures At(ts, i, a) && At(ts, i + |a|, b)
  {
    forall m | 0 <= m < |a|
      ensures ts[i + m] == a[m]
    {
      assert (a + b)[m] == a[m];
    }
    forall m | 0 <= m < |b|
      ensures ts[i + |a| + m] == b[m]
    {
      assert (a + b)[|a| + m] == b[m];
    }
  }

  lemma AtOne(ts: seq<Token>, i: nat, t: Token)
    requires At(ts, i, [t])
    ensures ts[i] == t
  {
    assert [t][0] == t;
  }

  /** A sequence holds each of its prefixes at index 0. */
  lemma AtPrefix(ts: seq<Token>, p: seq<Token>, rest: seq<Token>)
    requires ts == p + rest
    ensures At(ts, 0, p)
  {
    forall m | 0 <= m < |p|
      ensures ts[0 + m] == p[m]
    {
    }
  }

  // The tokens at which each loop of the grammar stops.
  predicate StopMul(t: Token) { !Matches(t, "*") && !Matches(t, "/") }
  predicate StopAdd(t: Token) { StopMul(t) && !Matches(t, "+") && !Matches(t, "-") }
  predicate StopRel(t: Token) {
    StopAdd(t) && !Matches(t, ">=") && !Matches(t, "<=") && !Matches(t, ">") && !Matches(t, "<")
  }
  predicate StopEq(t: Token) { StopRel(t) && !Matches(t, "==") && !Matches(t, "!=") }

  /** A symbol matches an operator only if their first characters agree. */
  lemma HeadDecides()
    ensures forall t: Token, op: string :: |op| > 0 && Matches(t, op) ==> t.str[0] == op[0]
  {
    forall t: Token, op: string | |op| > 0 && Matches(t, op)
      ensures t.str[0] == op[0]
    {
      assert t.str[..|op|][0] == op[0];
    }
  }

  // Which grammar loop accepts each symbol, in the order the loops try them.

  lemma MulSyms()
    ensures Matches(Sym("*"), "*")
    ensures !Matches(Sym("/"), "*") && Matches(Sym("/"), "/")
  {
    HeadDecides();
    assert "*"[..1] == "*" && "/"[..1] == "/";
  }

  lemma AddSyms()
    ensures StopMul(Sym("+")) && Matches(Sym("+"), "+")
    ensures StopMul(Sym("-")) && !Matches(Sym("-"), "+") && Matches(Sym("-"), "-")
  {
    HeadDecides();
    assert "+"[..1] == "+" && "-"[..1] == "-";
  }

  lemma RelSyms()
    ensures StopAdd(Sym(">=")) && Matches(Sym(">="), ">=")
    ensures StopAdd(Sym("<=")) && !Matches(Sym("<="), ">=") && Matches(Sym("<="), "<=")
    ensures StopAdd(Sym(">")) && !Matches(Sym(">"), ">=") && !Matches(Sym(">"), "<=") && Matches(Sym(">"), ">")
    ensures StopAdd(Sym("<")) && !Matches(Sym("<"), ">=") && !Matches(Sym("<"), "<=")
    ensures !Matches(Sym("<"), ">") && Matches(Sym("<"), "<")
  {
    HeadDecides();
    assert ">="[..2] == ">=" && "<="[..2] == "<=";
    assert ">"[..1] == ">" && "<"[..1] == "<";
  }

  lemma EqSyms()
    ensures StopRel(Sym("==")) && Matches(Sym("=="), "==")
    ensures StopRel(Sym("!=")) && !Matches(Sym("!="), "==") && Matches(Sym("!="), "!=")
  {
    HeadDecides();
    assert "=="[..2] == "==" && "!="[..2] == "!=";
  }

  lemma ParenSyms()
    ensures StopEq(Sym(")")) && StopEq(EofToken())
    ensures Matches(Sym("("), "(") && Matches(Sym(")"), ")")
    ensures !Matches(Sym("("), "+") && !Matches(Sym("("), "-")
  {
    HeadDecides();
    assert "("[..1] == "(" && ")"[..1] == ")";
  }

  lemma EofStops()
    ensures StopEq(EofToken())
  {
  }

  lemma FirstTokenIsPlain(n: Node)
    ensures |Print(n)| > 0
    ensures !Matches(Print(n)[0], "+") && !Matches(Print(n)[0], "-")
    ensures Print(n)[0].kind == Number || Print(n)[0] == Sym("(")
  {
    ParenSyms();
  }

  lemma ParenStep(ts: seq<Token>, i: nat, n: Node, k: nat, e: nat)
    requires ValidTokens(ts) && i + 1 < |ts| && ts[i] == Sym("(")
    requires ParseExpr(ts, i + 1) == Ok((n, k)) && ts[k] == Sym(")") && e == k + 1
    ensures ParsePrimary(ts, i) == Ok((n, e))
  {
    ParenSyms();
  }

  /** A printed operation lies between its parentheses, with the operator
      text in between. */
  lemma ParenParts(op: BinOp, l: Node, r: Node, ts: seq<Token>, i: nat, e: nat)
    requires At(ts, i, Print(Bin(op, l, r))) && e == i + |Print(Bin(op, l, r))| && e < |ts|
    ensures ts[i] == Sym("(") && ts[e - 1] == Sym(")") && StopEq(ts[e - 1])
    ensures At(ts, i + 1, Inner(op, l, r)) && e - 1 == i + 1 + |Inner(op, l, r)|
  {
    var inner := Inner(op, l, r);
    assert Print(Bin(op, l, r)) == [Sym("(")] + inner + [Sym(")")];
    AtSplit(ts, i, [Sym("(")] + inner, [Sym(")")]);
    AtSplit(ts, i, [Sym("(")], inner);
    AtOne(ts, i, Sym("("));
    AtOne(ts, i + 1 + |inner|, Sym(")"));
    ParenSyms();
  }

  lemma {:induction false} PrimaryOf(n: Node, ts: seq<Token>, i: nat, e: nat)
    requires ValidTokens(ts)
    requires At(ts, i, Print(n)) && e == i + |Print(n)| && e < |ts|
    ensures ParsePrimary(ts, i) == Ok((n, e))
    decreases n, 3
  {
    match n
    case Num(v) =>
      AtOne(ts, i, NumTok(v));
    case Bin(op, l, r) =>
      ParenParts(op, l, r, ts, i, e);
      InnerExpr(op, l, r, ts, i + 1, e - 1);
      ParenStep(ts, i, n, e - 1, e);
  }

  lemma UnaryOf(n: Node, ts: seq<Token>, i: nat, e: nat)
    requires ValidTokens(ts)
    requires At(ts, i, Print(n)) && e == i + |Print(n)| && e < |ts|
    ensures ParseUnary(ts, i) == Ok((n, e))
    decreases n, 4
  {
    FirstTokenIsPlain(n);
    assert ts[i] == Print(n)[0] by { AtOne(ts, i, Print(n)[0]); assert Print(n) == [Print(n)[0]] + Print(n)[1..]; AtSplit(ts, i, [Print(n)[0]], Print(n)[1..]); }
    PrimaryOf(n, ts, i, e);
  }

  lemma MulOf(n: Node, ts: seq<Token>, i: nat, e: nat)
    requires ValidTokens(ts)
    requires At(ts, i, Print(n)) && e == i + |Print(n)| && e < |ts| && StopMul(ts[e])
    ensures ParseMul(ts, i) == Ok((n, e))
    decreases n, 5
  {
    UnaryOf(n, ts, i, e);
  }

  lemma AddOfMul(ts: seq<Token>, i: nat, n: Node, j: nat)
    requires ValidTokens(ts) && i < |ts|
    requires ParseMul(ts, i) == Ok((n, j)) && StopAdd(ts[j])
    ensures ParseAdd(ts, i) == Ok((n, j))
  {
  }

  lemma RelOfAdd(ts: seq<Token>, i: nat, n: Node, j: nat)
    requires ValidTokens(ts) && i < |ts|
    requires ParseAdd(ts, i) == Ok((n, j)) && StopRel(ts[j])
    ensures ParseRelational(ts, i) == Ok((n, j))
  {
  }

  lemma ExprOfRel(ts: seq<Token>, i: nat, n: Node, j: nat)
    requires ValidTokens(ts) && i < |ts|
    requires ParseRelational(ts, i) == Ok((n, j)) && StopEq(ts[j])
    ensures ParseExpr(ts, i) == Ok((n, j))
  {
    assert ParseEquality(ts, i) == EqualityTail(ts, j, n);
  }

  lemma AddOf(n: Node, ts: seq<Token>, i: nat, e: nat)
    requires ValidTokens(ts)
    requires At(ts, i, Print(n)) && e == i + |Print(n)| && e < |ts| && StopAdd(ts[e])
    ensures ParseAdd(ts, i) == Ok((n, e))
    decreases n, 6
  {
    MulOf(n, ts, i, e);
    AddOfMul(ts, i, n, e);
  }

  lemma RelOf(n: Node, ts: seq<Token>, i: nat, e: nat)
    requires ValidTokens(ts)
    requires At(ts, i, Print(n)) && e == i + |Print(n)| && e < |ts| && StopRel(ts[e])
    ensures ParseRelational(ts, i) == Ok((n, e))
    decreases n, 7
  {
    AddOf(n, ts, i, e);
    RelOfAdd(ts, i, n, e);
  }

  /** A printed tree followed by a token no loop of the grammar accepts is
      parsed back as that tree. */
  lemma ExprOf(n: Node, ts: seq<Token>, i: nat, e: nat)
    requires ValidTokens(ts)
    requires At(ts, i, Print(n)) && e == i + |Print(n)| && e < |ts| && StopEq(ts[e])
    ensures ParseExpr(ts, i) == Ok((n, e))
    decreases n, 8
  {
    RelOf(n, ts, i, e);
    ExprOfRel(ts, i, n, e);
  }

  // One step of each grammar loop, stated over parse results only.

  lemma MulStep(op: BinOp, ts: seq<Token>, i: nat, a: Node, j: nat, b: Node, k: nat)
    requires op == Mul || op == Div
    requires ValidTokens(ts) && i < |ts| && j + 1 < |ts|
    requires ParseUnary(ts, i) == Ok((a, j)) && ts[j] == Sym(OpText(op))
    requires ParseUnary(ts, j + 1) == Ok((b, k)) && StopEq(ts[k])
    ensures ParseExpr(ts, i) == Ok((Bin(op, a, b), k))
  {
    MulSyms();
    var n := Bin(op, a, b);
    assert ParseMul(ts, i) == MulTail(ts, j, a);
    if op == Mul {
      assert Matches(ts[j], "*");
    } else {
      assert !Matches(ts[j], "*") && Matches(ts[j], "/");
    }
    assert MulTail(ts, j, a) == MulTail(ts, k, n);
    assert MulTail(ts, k, n) == Ok((n, k));
    AddOfMul(ts, i, n, k);
    RelOfAdd(ts, i, n, k);
    ExprOfRel(ts, i, n, k);
  }

  lemma AddStep(op: BinOp, ts: seq<Token>, i: nat, a: Node, j: nat, b: Node, k: nat)
    requires op == Add || op == Sub
    requires ValidTokens(ts) && i < |ts| && j + 1 < |ts|
    requires ParseMul(ts, i) == Ok((a, j)) && ts[j] == Sym(OpText(op))
    requires ParseMul(ts, j + 1) == Ok((b, k)) && StopEq(ts[k])
    ensures ParseExpr(ts, i) == Ok((Bin(op, a, b), k))
  {
    AddSyms();
    var n := Bin(op, a, b);
    assert ParseAdd(ts, i) == AddTail(ts, j, a);
    if op == Add {
      assert Matches(ts[j], "+");
    } else {
      assert !Matches(ts[j], "+") && Matches(ts[j], "-");
    }
    assert AddTail(ts, j, a) == AddTail(ts, k, n);
    assert AddTail(ts, k, n) == Ok((n, k));
    RelOfAdd(ts, i, n, k);
    ExprOfRel(ts, i, n, k);
  }

  /** `a o b` for a comparison `o`: `>` and `>=` build the node with `b` on the left. */
  lemma RelStep(op: BinOp, ts: seq<Token>, i: nat, a: Node, j: nat, b: Node, k: nat)
    requires op == Gt || op == Ge || op == Lt || op == Le
    requires ValidTokens(ts) && i < |ts| && j + 1 < |ts|
    requires ParseAdd(ts, i) == Ok((a, j)) && ts[j] == Sym(OpText(op))
    requires ParseAdd(ts, j + 1) == Ok((b, k)) && StopEq(ts[k])
    ensures ParseExpr(ts, i) == Ok((if op == Gt || op == Ge then Bin(op, b, a) else Bin(op, a, b), k))
  {
    RelSyms();
    var n := if op == Gt || op == Ge then Bin(op, b, a) else Bin(op, a, b);
    assert ParseRelational(ts, i) == RelationalTail(ts, j, a);
    match op {
      case Ge => assert Matches(ts[j], ">=");
      case Le => assert !Matches(ts[j], ">=") && Matches(ts[j], "<=");
      case Gt => assert !Matches(ts[j], ">=") && !Matches(ts[j], "<=") && Matches(ts[j], ">");
      case Lt =>
        assert !Matches(ts[j], ">=") && !Matches(ts[j], "<=") && !Matches(ts[j], ">");
        assert Matches(ts[j], "<");
    }
    assert RelationalTail(ts, j, a) == RelationalTail(ts, k, n);
    assert RelationalTail(ts, k, n) == Ok((n, k));
    ExprOfRel(ts, i, n, k);
  }

  lemma EqStep(op: BinOp, ts: seq<Token>, i: nat, a: Node, j: nat, b: Node, k: nat)
    requires op == Eq || op == Ne
    requires ValidTokens(ts) && i < |ts| && j + 1 < |ts|
    requires ParseRelational(ts, i) == Ok((a, j)) && ts[j] == Sym(OpText(op))
    requires ParseRelational(ts, j + 1) == Ok((b, k)) && StopEq(ts[k])
    ensures ParseExpr(ts, i) == Ok((Bin(op, a, b), k))
  {
    EqSyms();
    var n := Bin(op, a, b);
    assert ParseEquality(ts, i) == EqualityTail(ts, j, a);
    if op == Eq {
      assert Matches(ts[j], "==");
    } else {
      assert !Matches(ts[j], "==") && Matches(ts[j], "!=");
    }
    assert EqualityTail(ts, j, a) == EqualityTail(ts, k, n);
    assert EqualityTail(ts, k, n) == Ok((n, k));
  }

  /** `p`, the symbol `o` and `q` lie at index `i` of `ts` (the symbol at
      `j`), and the token at `k` after them is one no loop accepts. */
  predicate Around(ts: seq<Token>, i: nat, p: seq<Token>, o: string, q: seq<Token>, j: nat, k: nat)
  {
    j == i + |p| && k == j + 1 + |q| && k < |ts| &&
    At(ts, i, p) && ts[j] == Sym(o) && At(ts, j + 1, q) && StopEq(ts[k])
  }

  lemma AroundOf(ts: seq<Token>, i: nat, p: seq<Token>, o: string, q: seq<Token>, k: nat)
    requires At(ts, i, p + [Sym(o)] + q)
    requires k == i + |p| + 1 + |q| && k < |ts| && StopEq(ts[k])
    ensures Around(ts, i, p, o, q, i + |p|, k)
  {
    AtSplit(ts, i, p + [Sym(o)], q);
    AtSplit(ts, i, p, [Sym(o)]);
    AtOne(ts, i + |p|, Sym(o));
  }

  lemma AddOpFacts(op: BinOp)
    requires op == Add || op == Sub
    ensures StopMul(Sym(OpText(op)))
  {
    AddSyms();
  }

  lemma RelOpFacts(op: BinOp)
    requires op == Gt || op == Ge || op == Lt || op == Le
    ensures StopAdd(Sym(OpText(op)))
  {
    RelSyms();
  }

  lemma EqOpFacts(op: BinOp)
    requires op == Eq || op == Ne
    ensures StopRel(Sym(OpText(op)))
  {
    EqSyms();
  }

  lemma {:induction false} MulLevel(op: BinOp, first: Node, second: Node, ts: seq<Token>, i: nat, j: nat, k: nat)
    requires op == Mul || op == Div
    requires ValidTokens(ts)
    requires Around(ts, i, Print(first), OpText(op), Print(second), j, k)
    ensures ParseExpr(ts, i) == Ok((Bin(op, first, second), k))
    decreases Bin(op, first, second), 0
  {
    UnaryOf(first, ts, i, j);
    UnaryOf(second, ts, j + 1, k);
    MulStep(op, ts, i, first, j, second, k);
  }

  lemma {:induction false} AddLevel(op: BinOp, first: Node, second: Node, ts: seq<Token>, i: nat, j: nat, k: nat)
    requires op == Add || op == Sub
    requires ValidTokens(ts)
    requires Around(ts, i, Print(first), OpText(op), Print(second), j, k)
    ensures ParseExpr(ts, i) == Ok((Bin(op, first, second), k))
    decreases Bin(op, first, second), 0
  {
    AddOpFacts(op);
    MulOf(first, ts, i, j);
    MulOf(second, ts, j + 1, k);
    AddStep(op, ts, i, first, j, second, k);
  }

  lemma {:induction false} RelLevel(op: BinOp, first: Node, second: Node, n: Node, ts: seq<Token>, i: nat, j: nat, k: nat)
    requires op == Gt || op == Ge || op == Lt || op == Le
    requires n == if op == Gt || op == Ge then Bin(op, second, first) else Bin(op, first, second)
    requires ValidTokens(ts)
    requires Around(ts, i, Print(first), OpText(op), Print(second), j, k)
    ensures ParseExpr(ts, i) == Ok((n, k))
    decreases n, 0
  {
    RelOpFacts(op);
    AddOf(first, ts, i, j);
    AddOf(second, ts, j + 1, k);
    RelStep(op, ts, i, first, j, second, k);
  }

  lemma {:induction false} EqLevel(op: BinOp, first: Node, second: Node, ts: seq<Token>, i: nat, j: nat, k: nat)
    requires op == Eq || op == Ne
    requires ValidTokens(ts)
    requires Around(ts, i, Print(first), OpText(op), Print(second), j, k)
    ensures ParseExpr(ts, i) == Ok((Bin(op, first, second), k))
    decreases Bin(op, first, second), 0
  {
    EqOpFacts(op);
    RelOf(first, ts, i, j);
    RelOf(second, ts, j + 1, k);
    EqStep(op, ts, i, first, j, second, k);
  }

  lemma {:induction false} InnerExpr(op: BinOp, l: Node, r: Node, ts: seq<Token>, i: nat, k: nat)
    requires ValidTokens(ts)
    requires At(ts, i, Inner(op, l, r)) && k == i + |Inner(op, l, r)| && k < |ts|
    requires StopEq(ts[k])
    ensures ParseExpr(ts, i) == Ok((Bin(op, l, r), k))
    decreases Bin(op, l, r), 2
  {
    if op == Gt || op == Ge {
      AroundOf(ts, i, Print(r), OpText(op), Print(l), k);
      RelLevel(op, r, l, Bin(op, l, r), ts, i, i + |Print(r)|, k);
    } else {
      AroundOf(ts, i, Print(l), OpText(op), Print(r), k);
      InSourceOrder(op, l, r, ts, i, i + |Print(l)|, k);
    }
  }

  /** The operators whose tree keeps the source order of the operands. */
  lemma {:induction false} InSourceOrder(op: BinOp, l: Node, r: Node, ts: seq<Token>, i: nat, j: nat, k: nat)
    requires op != Gt && op != Ge
    requires ValidTokens(ts)
    requires Around(ts, i, Print(l), OpText(op), Print(r), j, k)
    ensures ParseExpr(ts, i) == Ok((Bin(op, l, r), k))
    decreases Bin(op, l, r), 1
  {
    if op == Mul || op == Div {
      MulLevel(op, l, r, ts, i, j, k);
    } else if op == Add || op == Sub {
      AddLevel(op, l, r, ts, i, j, k);
    } else if op == Eq || op == Ne {
      EqLevel(op, l, r, ts, i, j, k);
    } else {
      RelLevel(op, l, r, Bin(op, l, r), ts, i, j, k);
    }
  }

  /** Parsing inverts printing: the fully parenthesised tokens of any tree,
      closed by the end marker, parse back to that tree and stop at the marker. */
  lemma ParsePrintRoundTrip(n: Node)
    ensures ParseExpr(Print(n) + [EofToken()], 0) == Ok((n, |Print(n)|))
  {
    var ts := Print(n) + [EofToken()];
    AtPrefix(ts, Print(n), [EofToken()]);
    ParenSyms();
    ExprOf(n, ts, 0, |Print(n)|);
  }

  /** One more `+ mul` or `- mul` round of the loop in `add`. */
  lemma AddTailStep(op: BinOp, ts: seq<Token>, j: nat, acc: Node, b: Node, k: nat)
    requires op == Add || op == Sub
    requires ValidTokens(ts) && j + 1 < |ts| && ts[j] == Sym(OpText(op))
    requires ParseMul(ts, j + 1) == Ok((b, k))
    ensures AddTail(ts, j, acc) == AddTail(ts, k, Bin(op, acc, b))
  {
    AddSyms();
    if op == Sub {
      assert !Matches(ts[j], "+");
    }
  }

  lemma MulTailStep(op: BinOp, ts: seq<Token>, j: nat, acc: Node, b: Node, k: nat)
    requires op == Mul || op == Div
    requires ValidTokens(ts) && j + 1 < |ts| && ts[j] == Sym(OpText(op))
    requires ParseUnary(ts, j + 1) == Ok((b, k))
    ensures MulTail(ts, j, acc) == MulTail(ts, k, Bin(op, acc, b))
  {
    MulSyms();
    if op == Div {
      assert !Matches(ts[j], "*");
    }
  }

  /** One step of the `equality` loop: `==` or `!=` after the tree so far
      makes it the left operand of a new node, so `a == b != c` nests as
      `(a == b) != c`. */
  lemma EqualityTailStep(op: BinOp, ts: seq<Token>, j: nat, acc: Node, b: Node, k: nat)
    requires op == Eq || op == Ne
    requires ValidTokens(ts) && j + 1 < |ts| && ts[j] == Sym(OpText(op))
    requires ParseRelational(ts, j + 1) == Ok((b, k))
    ensures EqualityTail(ts, j, acc) == EqualityTail(ts, k, Bin(op, acc, b))
  {
    EqSyms();
    if op == Ne {
      assert !Matches(ts[j], "==");
    }
  }

  /** One step of the `relational` loop: `<` and `<=` put the tree so far on
      the left of the new node, `>` and `>=` on its right (`a > b` is read
      as `b < a`); either way the chain nests to the left. */
  lemma RelationalTailStep(op: BinOp, ts: seq<Token>, j: nat, acc: Node, b: Node, k: nat)
    requires op == Lt || op == Le || op == Gt || op == Ge
    requires ValidTokens(ts) && j + 1 < |ts| && ts[j] == Sym(OpText(op))
    requires ParseAdd(ts, j + 1) == Ok((b, k))
    ensures op == Lt || op == Le ==> RelationalTail(ts, j, acc) == RelationalTail(ts, k, Bin(op, acc, b))
    ensures op == Gt || op == Ge ==> RelationalTail(ts, j, acc) == RelationalTail(ts, k, Bin(op, b, acc))
  {
    RelSyms();
    if op == Le {
      assert !Matches(ts[j], ">=");
    } else if op == Gt {
      assert !Matches(ts[j], ">=") && !Matches(ts[j], "<=");
    } else if op == Lt {
      assert !Matches(ts[j], ">=") && !Matches(ts[j], "<=") && !Matches(ts[j], ">");
    }
  }

  /** `*` binds tighter than `+`: in `a + b * c`, where `a` parses as a
      product and `b` and `c` as unary expressions, the tree is `a + (b * c)`. */
  lemma MulUnderAdd(ts: seq<Token>, a: Node, j1: nat, b: Node, j2: nat, c: Node, k: nat)
    requires ValidTokens(ts) && j1 + 1 < |ts| && j2 + 1 < |ts|
    requires ParseMul(ts, 0) == Ok((a, j1)) && ts[j1] == Sym("+")
    requires ParseUnary(ts, j1 + 1) == Ok((b, j2)) && ts[j2] == Sym("*")
    requires ParseUnary(ts, j2 + 1) == Ok((c, k)) && StopEq(ts[k])
    ensures ParseExpr(ts, 0) == Ok((Bin(Add, a, Bin(Mul, b, c)), k))
  {
    var bc := Bin(Mul, b, c);
    var n := Bin(Add, a, bc);
    MulTailStep(Mul, ts, j2, b, c, k);
    assert ParseMul(ts, j1 + 1) == Ok((bc, k)) by {
      assert ParseMul(ts, j1 + 1) == MulTail(ts, j2, b);
      assert MulTail(ts, k, bc) == Ok((bc, k));
    }
    AddTailStep(Add, ts, j1, a, bc, k);
    assert ParseAdd(ts, 0) == Ok((n, k)) by {
      assert ParseAdd(ts, 0) == AddTail(ts, j1, a);
      assert AddTail(ts, k, n) == Ok((n, k));
    }
    RelOfAdd(ts, 0, n, k);
    ExprOfRel(ts, 0, n, k);
  }

  /** `-` groups to the left: `a - b - c`, each operand a product, is
      `(a - b) - c`. */
  lemma SubThenSub(ts: seq<Token>, a: Node, j1: nat, b: Node, j2: nat, c: Node, k: nat)
    requires ValidTokens(ts) && j1 + 1 < |ts| && j2 + 1 < |ts|
    requires ParseMul(ts, 0) == Ok((a, j1)) && ts[j1] == Sym("-")
    requires ParseMul(ts, j1 + 1) == Ok((b, j2)) && ts[j2] == Sym("-")
    requires ParseMul(ts, j2 + 1) == Ok((c, k)) && StopEq(ts[k])
    ensures ParseExpr(ts, 0) == Ok((Bin(Sub, Bin(Sub, a, b), c), k))
  {
    var n := Bin(Sub, Bin(Sub, a, b), c);
    AddTailStep(Sub, ts, j1, a, b, j2);
    AddTailStep(Sub, ts, j2, Bin(Sub, a, b), c, k);
    assert ParseAdd(ts, 0) == Ok((n, k)) by {
      assert ParseAdd(ts, 0) == AddTail(ts, j1, a);
      assert AddTail(ts, k, n) == Ok((n, k));
    }
    RelOfAdd(ts, 0, n, k);
    ExprOfRel(ts, 0, n, k);
  }

  /** The pieces of `p + [t] + q + [e]`. */
  lemma SplitTwo(ts: seq<Token>, p: seq<Token>, t: Token, q: seq<Token>, e: Token)
    requires ts == p + [t] + q + [e]
    ensures At(ts, 0, p + [t] + q) && ts[|ts| - 1] == e && |ts| - 1 == 0 + |p| + 1 + |q|
    ensures e.kind == Eof ==> ValidTokens(ts)
  {
    AtPrefix(ts, p + [t] + q, [e]);
  }

  lemma RelationAt(op: BinOp, ts: seq<Token>, a: Node, b: Node, k: nat)
    requires op == Gt || op == Ge || op == Lt || op == Le
    requires ValidTokens(ts)
    requires Around(ts, 0, Print(a), OpText(op), Print(b), |Print(a)|, k)
    ensures ParseExpr(ts, 0) == Ok((if op == Gt || op == Ge then Bin(op, b, a) else Bin(op, a, b), k))
  {
    var n := if op == Gt || op == Ge then Bin(op, b, a) else Bin(op, a, b);
    RelLevel(op, a, b, n, ts, 0, |Print(a)|, k);
  }

  /** The tokens of `a o b` followed by the end marker. */
  function Relation(op: BinOp, a: Node, b: Node): seq<Token> {
    Print(a) + [Sym(OpText(op))] + Print(b) + [EofToken()]
  }

  /** `a o b` for a comparison `o` is one node; `a > b` and `a >= b` are built
      with the operands swapped, as `Bin(Gt, b, a)` and `Bin(Ge, b, a)`. */
  lemma RelationOperands(op: BinOp, a: Node, b: Node)
    requires op == Gt || op == Ge || op == Lt || op == Le
    ensures ParseExpr(Relation(op, a, b), 0) ==
      Ok((if op == Gt || op == Ge then Bin(op, b, a) else Bin(op, a, b), |Relation(op, a, b)| - 1))
  {
    var ts := Relation(op, a, b);
    var k := |ts| - 1;
    assert ValidTokens(ts) && Around(ts, 0, Print(a), OpText(op), Print(b), |Print(a)|, k) by {
      SplitTwo(ts, Print(a), Sym(OpText(op)), Print(b), EofToken());
      EofStops();
      AroundOf(ts, 0, Print(a), OpText(op), Print(b), k);
    }
    RelationAt(op, ts, a, b, k);
  }

  lemma NegationAt(ts: seq<Token>, x: Node, k: nat)
    requires ValidTokens(ts) && 1 < |ts| && ts[0] == Sym("-")
    requires At(ts, 1, Print(x)) && k == 1 + |Print(x)| && k < |ts| && StopEq(ts[k])
    ensures ParseExpr(ts, 0) == Ok((Bin(Sub, Num(0), x), k))
  {
    var n := Bin(Sub, Num(0), x);
    assert ParsePrimary(ts, 1) == Ok((x, k)) by { PrimaryOf(x, ts, 1, k); }
    assert ParseUnary(ts, 0) == Ok((n, k)) by { AddSyms(); }
    assert ParseMul(ts, 0) == MulTail(ts, k, n) == Ok((n, k));
    AddOfMul(ts, 0, n, k);
    RelOfAdd(ts, 0, n, k);
    ExprOfRel(ts, 0, n, k);
  }

  /** Unary minus is subtraction from zero: `-x` is `0 - x`. */
  lemma NegationIsSubtraction(x: Node)
    ensures var ts := [Sym("-")] + Print(x) + [EofToken()];
      ParseExpr(ts, 0) == Ok((Bin(Sub, Num(0), x), |ts| - 1))
  {
    var ts := [Sym("-")] + Print(x) + [EofToken()];
    assert ts == [] + [Sym("-")] + Print(x) + [EofToken()];
    SplitTwo(ts, [], Sym("-"), Print(x), EofToken());
    AtSplit(ts, 0, [Sym("-")], Print(x));
    AtOne(ts, 0, Sym("-"));
    EofStops();
    NegationAt(ts, x, |ts| - 1);
  }
}
