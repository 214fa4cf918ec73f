/// Properties of the typed expression grammar: every call node the parser
/// builds has at most six arguments numbered from the last one down to 1,
/// subscripting yields the element type, and the scaling `add_node` applies
/// matches the pointee's size for the cases it was written for, and not for
/// the others.

module CExprProps {
  import opened Util
  import opened Types
  import opened Sym
  import opened CLex
  import opened CTokens
  import opened CExpr

  /** Every call node inside `n` has a well-numbered argument list. */
  predicate CallsOk(n: Node) {
    match n
    case Bin(_, _, l, x) => CallsOk(l) && CallsOk(x)
    case DerefNode(_, x) => CallsOk(x)
    case AddrNode(_, x) => CallsOk(x)
    case Call(_, _, args) => Numbered(args) && forall k :: 0 <= k < |args| ==> CallsOk(args[k].node)
    case ExprStmt(e) => CallsOk(e)
    case ReturnStmt(e) => CallsOk(e)
    case IfStmt(c, b, e) => CallsOk(c) && CallsOk(b) && (e.Some? ==> CallsOk(e.value))
    case ForStmt(a, c, s, b) =>
      (a.Some? ==> CallsOk(a.value)) && (c.Some? ==> CallsOk(c.value)) &&
      (s.Some? ==> CallsOk(s.value)) && CallsOk(b)
    case WhileStmt(c, b) => CallsOk(c) && CallsOk(b)
    case Block(ss) => forall k :: 0 <= k < |ss| ==> CallsOk(ss[k])
    case _ => true
  }

  /** Every argument node is well formed. */
  predicate ArgsOk(args: seq<Arg>) {
    forall k :: 0 <= k < |args| ==> CallsOk(args[k].node)
  }

  lemma ArgsAppend(rest: seq<Arg>, a: Arg)
    requires ArgsOk(rest) && CallsOk(a.node)
    ensures ArgsOk(rest + [a])
  {
    var args := rest + [a];
    forall k | 0 <= k < |args|
      ensures CallsOk(args[k].node)
    {
      if k < |rest| {
        assert args[k] == rest[k];
      }
    }
  }

  /** A list left in `head` has well-formed argument nodes. */
  predicate HeadArgsOk(h: Head) {
    h.Some? ==> ArgsOk(h.value)
  }

  predicate Good(r: Parsed) {
    r.Ok? ==> CallsOk(r.value.0) && HeadArgsOk(r.value.2)
  }

  lemma {:induction false} MulByCalls(q: Node, fs: seq<nat>)
    requires CallsOk(q)
    ensures CallsOk(MulBy(q, fs))
    decreases |fs|
  {
    if |fs| > 0 {
      MulByCalls(Bin(Mul, TypeOf(q), q, Num(fs[0])), fs[1..]);
    }
  }

  lemma AddNodeCalls(op: Op, lhs: Node, rhs: Node)
    requires CallsOk(lhs) && CallsOk(rhs)
    ensures AddNode(op, lhs, rhs).Ok? ==> CallsOk(AddNode(op, lhs, rhs).value)
  {
    if AddNode(op, lhs, rhs).Ok? {
      if IsPtr(TypeOf(Pointer(lhs)).value) {
        ScaledCalls(op, lhs, rhs);
      } else if Swapped(lhs, rhs) {
        ScaledCalls(op, rhs, lhs);
      }
    }
  }

  lemma ScaledCalls(op: Op, lhs: Node, rhs: Node)
    requires CallsOk(lhs) && CallsOk(rhs) && TypeOf(lhs).Some? && TypeOf(Pointer(lhs)).value.Ptr?
    ensures CallsOk(Bin(op, TypeOf(lhs), lhs, MulBy(rhs, Factors(TypeOf(Pointer(lhs)).value.to, TypeOf(lhs).value))))
  {
    MulByCalls(rhs, Factors(TypeOf(Pointer(lhs)).value.to, TypeOf(lhs).value));
  }

  lemma {:induction false} ExprCalls(ts: seq<Token>, i: nat, tab: Table, d: Dialect)
    requires ValidTokens(ts) && i < |ts| && WellFormed(tab)
    ensures Good(ParseExpr(ts, i, tab, d))
    decreases |ts| - i, 9
  {
    AssignCalls(ts, i, tab, d);
  }

  lemma {:induction false} AssignCalls(ts: seq<Token>, i: nat, tab: Table, d: Dialect)
    requires ValidTokens(ts) && i < |ts| && WellFormed(tab)
    ensures Good(ParseAssign(ts, i, tab, d))
    decreases |ts| - i, 8
  {
    EqualityCalls(ts, i, tab, d);
    var left := ParseEquality(ts, i, tab, d);
    if left.Ok? && Consumes(ts[left.value.1], "=") {
      AssignCalls(ts, left.value.1 + 1, tab, d);
    }
  }

  lemma {:induction false} EqualityCalls(ts: seq<Token>, i: nat, tab: Table, d: Dialect)
    requires ValidTokens(ts) && i < |ts| && WellFormed(tab)
    ensures Good(ParseEquality(ts, i, tab, d))
    decreases |ts| - i, 7
  {
    RelationalCalls(ts, i, tab, d);
    var left := ParseRelational(ts, i, tab, d);
    if left.Ok? {
      EqualityTailCalls(ts, left.value.1, tab, d, left.value.0, left.value.2);
    }
  }

  lemma {:induction false} EqualityTailCalls(ts: seq<Token>, i: nat, tab: Table, d: Dialect, acc: Node, w: Head)
    requires ValidTokens(ts) && i < |ts| && WellFormed(tab) && CallsOk(acc) && HeadArgsOk(w)
    ensures Good(EqualityTail(ts, i, tab, d, acc, w))
    decreases |ts| - i, 0
  {
    if EqualityOp(ts[i]).Some? {
      RelationalCalls(ts, i + 1, tab, d);
      var right := ParseRelational(ts, i + 1, tab, d);
      if right.Ok? {
        EqualityTailCalls(ts, right.value.1, tab, d, Bin(EqualityOp(ts[i]).value, Some(Int), acc, right.value.0),
          Later(w, right.value.2));
      }
    }
  }

  lemma {:induction false} RelationalCalls(ts: seq<Token>, i: nat, tab: Table, d: Dialect)
    requires ValidTokens(ts) && i < |ts| && WellFormed(tab)
    ensures Good(ParseRelational(ts, i, tab, d))
    decreases |ts| - i, 6
  {
    AddCalls(ts, i, tab, d);
    var left := ParseAdd(ts, i, tab, d);
    if left.Ok? {
      RelationalTailCalls(ts, left.value.1, tab, d, left.value.0, left.value.2);
    }
  }

  lemma {:induction false} RelationalTailCalls(ts: seq<Token>, i: nat, tab: Table, d: Dialect, acc: Node, w: Head)
    requires ValidTokens(ts) && i < |ts| && WellFormed(tab) && CallsOk(acc) && HeadArgsOk(w)
    ensures Good(RelationalTail(ts, i, tab, d, acc, w))
    decreases |ts| - i, 1
  {
    if RelationalOp(ts[i]).Some? {
      RelationalStepCalls(ts, i, tab, d, acc, w);
    }
  }

  /** One comparison of the `relational` loop, then the rest of the loop. */
  lemma {:induction false} RelationalStepCalls(ts: seq<Token>, i: nat, tab: Table, d: Dialect, acc: Node, w: Head)
    requires ValidTokens(ts) && i < |ts| && WellFormed(tab) && CallsOk(acc) && HeadArgsOk(w)
    requires RelationalOp(ts[i]).Some?
    ensures Good(RelationalTail(ts, i, tab, d, acc, w))
    decreases |ts| - i, 0
  {
    AddCalls(ts, i + 1, tab, d);
    var operand := ParseAdd(ts, i + 1, tab, d);
    if operand.Ok? {
      RelationalTailCalls(ts, operand.value.1, tab, d,
        Compare(RelationalOp(ts[i]).value, acc, operand.value.0), Later(w, operand.value.2));
    }
  }

  lemma {:induction false} AddCalls(ts: seq<Token>, i: nat, tab: Table, d: Dialect)
    requires ValidTokens(ts) && i < |ts| && WellFormed(tab)
    ensures Good(ParseAdd(ts, i, tab, d))
    decreases |ts| - i, 5
  {
    MulCalls(ts, i, tab, d);
    var left := ParseMul(ts, i, tab, d);
    if left.Ok? {
      AddTailCalls(ts, left.value.1, tab, d, left.value.0, left.value.2);
    }
  }

  lemma {:induction false} AddTailCalls(ts: seq<Token>, i: nat, tab: Table, d: Dialect, acc: Node, w: Head)
    requires ValidTokens(ts) && i < |ts| && WellFormed(tab) && CallsOk(acc) && HeadArgsOk(w)
    ensures Good(AddTail(ts, i, tab, d, acc, w))
    decreases |ts| - i, 1
  {
    if AddOp(ts[i]).Some? {
      AddStepCalls(ts, i, tab, d, acc, w);
    }
  }

  /** One `add_node` of the `add` loop, then the rest of the loop. */
  lemma {:induction false} AddStepCalls(ts: seq<Token>, i: nat, tab: Table, d: Dialect, acc: Node, w: Head)
    requires ValidTokens(ts) && i < |ts| && WellFormed(tab) && CallsOk(acc) && HeadArgsOk(w)
    requires AddOp(ts[i]).Some?
    ensures Good(AddTail(ts, i, tab, d, acc, w))
    decreases |ts| - i, 0
  {
    MulCalls(ts, i + 1, tab, d);
    var right := ParseMul(ts, i + 1, tab, d);
    if right.Ok? {
      var op := AddOp(ts[i]).value;
      AddNodeCalls(op, acc, right.value.0);
      var sum := AddNode(op, acc, right.value.0);
      if sum.Ok? {
        AddTailCalls(ts, right.value.1, tab, d, sum.value, Later(w, right.value.2));
      }
    }
  }

  lemma {:induction false} MulCalls(ts: seq<Token>, i: nat, tab: Table, d: Dialect)
    requires ValidTokens(ts) && i < |ts| && WellFormed(tab)
    ensures Good(ParseMul(ts, i, tab, d))
    decreases |ts| - i, 4
  {
    UnaryCalls(ts, i, tab, d);
    var left := ParseUnary(ts, i, tab, d);
    if left.Ok? {
      MulTailCalls(ts, left.value.1, tab, d, left.value.0, left.value.2);
    }
  }

  lemma {:induction false} MulTailCalls(ts: seq<Token>, i: nat, tab: Table, d: Dialect, acc: Node, w: Head)
    requires ValidTokens(ts) && i < |ts| && WellFormed(tab) && CallsOk(acc) && HeadArgsOk(w)
    ensures Good(MulTail(ts, i, tab, d, acc, w))
    decreases |ts| - i, 0
  {
    if MulOp(ts[i]).Some? {
      UnaryCalls(ts, i + 1, tab, d);
      var right := ParseUnary(ts, i + 1, tab, d);
      if right.Ok? {
        var op := MulOp(ts[i]).value;
        MulTailCalls(ts, right.value.1, tab, d, Bin(op, TypeOf(acc), acc, right.value.0), Later(w, right.value.2));
      }
    }
  }

  lemma {:induction false} UnaryCalls(ts: seq<Token>, i: nat, tab: Table, d: Dialect)
    requires ValidTokens(ts) && i < |ts| && WellFormed(tab)
    ensures Good(ParseUnary(ts, i, tab, d))
    decreases |ts| - i, 3
  {
    if ts[i].kind == Sizeof || Consumes(ts[i], "*") || Consumes(ts[i], "&") {
      UnaryCalls(ts, i + 1, tab, d);
    } else if Consumes(ts[i], "+") || Consumes(ts[i], "-") {
      PrimaryCalls(ts, i + 1, tab, d);
    } else {
      PostfixCalls(ts, i, tab, d);
    }
  }

  lemma {:induction false} PostfixCalls(ts: seq<Token>, i: nat, tab: Table, d: Dialect)
    requires ValidTokens(ts) && i < |ts| && WellFormed(tab)
    ensures Good(ParsePostfix(ts, i, tab, d))
    decreases |ts| - i, 2
  {
    PrimaryCalls(ts, i, tab, d);
    var p := ParsePrimary(ts, i, tab, d);
    if p.Ok? {
      PostfixTailCalls(ts, p.value.1, tab, d, p.value.0, p.value.2);
    }
  }

  lemma {:induction false} PostfixTailCalls(ts: seq<Token>, i: nat, tab: Table, d: Dialect, acc: Node, w: Head)
    requires ValidTokens(ts) && i < |ts| && WellFormed(tab) && CallsOk(acc) && HeadArgsOk(w)
    ensures Good(PostfixTail(ts, i, tab, d, acc, w))
    decreases |ts| - i, 1
  {
    if Consumes(ts[i], "[") {
      SubscriptTailCalls(ts, i, tab, d, acc, w);
    } else if Consumes(ts[i], "(") {
      CallCalls(ts, i + 1, tab, d, acc);
    }
  }

  /** One subscript of the `postfix` loop, then the rest of the loop. */
  lemma {:induction false} SubscriptTailCalls(ts: seq<Token>, i: nat, tab: Table, d: Dialect, acc: Node, w: Head)
    requires ValidTokens(ts) && i < |ts| && WellFormed(tab) && CallsOk(acc) && HeadArgsOk(w)
    requires Consumes(ts[i], "[")
    ensures Good(PostfixTail(ts, i, tab, d, acc, w))
    decreases |ts| - i, 0
  {
    SubscriptCalls(ts, i + 1, tab, d, acc);
    var s := Subscript(ts, i + 1, tab, d, acc);
    if s.Ok? {
      PostfixTailCalls(ts, s.value.1, tab, d, s.value.0, Later(w, s.value.2));
    }
  }

  lemma {:induction false} SubscriptCalls(ts: seq<Token>, i: nat, tab: Table, d: Dialect, acc: Node)
    requires ValidTokens(ts) && i < |ts| && WellFormed(tab) && CallsOk(acc)
    ensures Good(Subscript(ts, i, tab, d, acc))
    decreases |ts| - i, 11
  {
    ExprCalls(ts, i, tab, d);
    var q := ParseExpr(ts, i, tab, d);
    if q.Ok? && Consumes(ts[q.value.1], "]") {
      AddNodeCalls(Add, acc, q.value.0);
    }
  }

  lemma {:induction false} PrimaryCalls(ts: seq<Token>, i: nat, tab: Table, d: Dialect)
    requires ValidTokens(ts) && i < |ts| && WellFormed(tab)
    ensures Good(ParsePrimary(ts, i, tab, d))
    decreases |ts| - i, 1
  {
    if Consumes(ts[i], "(") {
      ExprCalls(ts, i + 1, tab, d);
    }
  }

  /** Each argument node is well formed, and so are those of a list left
      in `head`. */
  lemma {:induction false} ArgListCalls(ts: seq<Token>, i: nat, tab: Table, d: Dialect, depth: nat)
    requires ValidTokens(ts) && i < |ts| && WellFormed(tab)
    ensures ArgList(ts, i, tab, d, depth).Ok? ==>
      ArgsOk(ArgList(ts, i, tab, d, depth).value.0) && HeadArgsOk(ArgList(ts, i, tab, d, depth).value.2)
    decreases |ts| - i, 10
  {
    if !Equal(ts[i], ")") {
      ExprCalls(ts, i, tab, d);
      var e := ParseExpr(ts, i, tab, d);
      if e.Ok? {
        ArgCalls(ts, i, tab, d, depth, e.value);
      }
    }
  }

  /** `ArgListCalls` once the argument at `i` has parsed as `e`. */
  lemma {:induction false} ArgCalls(ts: seq<Token>, i: nat, tab: Table, d: Dialect, depth: nat, e: (Node, nat, Head))
    requires ValidTokens(ts) && i < |ts| && WellFormed(tab) && !Equal(ts[i], ")")
    requires ParseExpr(ts, i, tab, d) == Ok(e) && CallsOk(e.0) && HeadArgsOk(e.2)
    ensures ArgList(ts, i, tab, d, depth).Ok? ==>
      ArgsOk(ArgList(ts, i, tab, d, depth).value.0) && HeadArgsOk(ArgList(ts, i, tab, d, depth).value.2)
    decreases |ts| - i, 9
  {
    if Equal(ts[e.1], ",") && Consumes(ts[e.1], ",") {
      MoreArgsCalls(ts, i, tab, d, depth, e);
    } else if !Equal(ts[e.1], ",") {
      var car := Arg(e.0, depth + 1, ts[i].text);
      ArgsAppend([], car);
      FrameResultCalls(d, depth, [car], e.1, None);
    }
  }

  /** `ArgCalls` when a `,` follows the argument at `i`. */
  lemma {:induction false} MoreArgsCalls(ts: seq<Token>, i: nat, tab: Table, d: Dialect, depth: nat, e: (Node, nat, Head))
    requires ValidTokens(ts) && i < |ts| && WellFormed(tab) && !Equal(ts[i], ")")
    requires ParseExpr(ts, i, tab, d) == Ok(e) && CallsOk(e.0) && HeadArgsOk(e.2)
    requires Equal(ts[e.1], ",") && Consumes(ts[e.1], ",")
    ensures ArgList(ts, i, tab, d, depth).Ok? ==>
      ArgsOk(ArgList(ts, i, tab, d, depth).value.0) && HeadArgsOk(ArgList(ts, i, tab, d, depth).value.2)
    decreases |ts| - i, 8
  {
    var car := Arg(e.0, depth + 1, ts[i].text);
    ArgListCalls(ts, e.1 + 1, tab, d, depth + 1);
    ArgListMore(ts, i, tab, d, depth, e);
    var rest := ArgList(ts, e.1 + 1, tab, d, depth + 1);
    if rest.Ok? && |rest.value.0| > 0 {
      ArgsAppend(rest.value.0, car);
      FrameResultCalls(d, depth, rest.value.0 + [car], rest.value.1, Later(rest.value.2, e.2));
    }
  }

  /** `arg_list` after an argument and a `,`: the rest of the list, which
      must not be empty, then the argument appended. */
  lemma {:induction false} ArgListMore(ts: seq<Token>, i: nat, tab: Table, d: Dialect, depth: nat, e: (Node, nat, Head))
    requires ValidTokens(ts) && i < |ts| && WellFormed(tab) && !Equal(ts[i], ")")
    requires ParseExpr(ts, i, tab, d) == Ok(e)
    requires Equal(ts[e.1], ",") && Consumes(ts[e.1], ",")
    ensures var rest := ArgList(ts, e.1 + 1, tab, d, depth + 1);
      ArgList(ts, i, tab, d, depth) ==
        if rest.Err? then Err(rest.msg)
        else if |rest.value.0| == 0 then Err(MissingArgument)
        else Ok(FrameResult(d, depth, rest.value.0 + [Arg(e.0, depth + 1, ts[i].text)], rest.value.1, Later(rest.value.2, e.2)))
  {
  }

  lemma FrameResultCalls(d: Dialect, depth: nat, own: seq<Arg>, j: nat, w: Head)
    requires ArgsOk(own) && HeadArgsOk(w)
    ensures ArgsOk(FrameResult(d, depth, own, j, w).0) && HeadArgsOk(FrameResult(d, depth, own, j, w).2)
  {
  }

  /** A call expression never has more than six arguments: `postfix`
      rejects a list whose head is numbered above 6, and the head's number is
      the count, also when the list is one that another call left in
      `head`. */
  lemma {:induction false} CallCalls(ts: seq<Token>, i: nat, tab: Table, d: Dialect, acc: Node)
    requires ValidTokens(ts) && i < |ts| && WellFormed(tab)
    ensures CallSuffix(ts, i, tab, d, acc).Ok? ==>
      var n := CallSuffix(ts, i, tab, d, acc).value.0;
      n.Call? && |n.args| <= 6 && CallsOk(n) && HeadArgsOk(CallSuffix(ts, i, tab, d, acc).value.2)
    decreases |ts| - i, 11
  {
    ArgListCalls(ts, i, tab, d, 0);
    var args := ArgList(ts, i, tab, d, 0);
    if args.Ok? && |args.value.0| > 0 {
      assert args.value.0[0].ireg == |args.value.0|;
    }
    if CallSuffix(ts, i, tab, d, acc).Ok? {
      var n := CallSuffix(ts, i, tab, d, acc).value.0;
      assert n.args == args.value.0;
      assert Numbered(n.args) && ArgsOk(n.args);
    }
  }

  /** The product of the scale factors. */
  function Product(fs: seq<nat>): (r: nat)
    ensures |fs| == 0 ==> r == 1
  {
    if |fs| == 0 then 1 else fs[0] * Product(fs[1..])
  }

  /** For a pointer to `int`, `char` or a pointer, and for a
      two-dimensional `int` array, the integer operand is scaled by exactly
      the size of what the left operand points to, so `p + n` advances by
      `n` elements. */
  lemma ScaleIsPointeeSize(pointee: Type, lt: Type)
    requires pointee == Int || pointee == Char || pointee.Ptr?
    requires lt == Ptr(pointee) || (lt.Array? && lt.elem == pointee)
    ensures Product(Factors(pointee, lt)) == TypeSize(pointee)
  {
    assert Factors(pointee, lt) == if pointee.Int? then [4] else if pointee.Char? then [] else [8];
  }

  lemma RowScaleIsRowSize(n: nat, m: nat)
    ensures Product(Factors(Array(Int, n), Array(Array(Int, n), m))) == TypeSize(Array(Int, n))
  {
    var fs := Factors(Array(Int, n), Array(Array(Int, n), m));
    assert fs == [4, n];
    assert fs[1..] == [n];
    assert Product(fs[1..]) == n * Product([]);
  }

  /** The cases the scaling does not get right: a row of `char`s is scaled
      as if it held `int`s, and a pointer to an array (not itself an array)
      advances by 4 bytes instead of a whole row. */
  lemma CharRowMisscaled(n: nat, m: nat)
    requires n > 0
    ensures Product(Factors(Array(Char, n), Array(Array(Char, n), m))) == 4 * n
    ensures TypeSize(Array(Char, n)) == n
  {
    var fs := Factors(Array(Char, n), Array(Array(Char, n), m));
    assert fs == [4, n];
    assert fs[1..] == [n];
    assert Product(fs[1..]) == n * Product([]);
  }

  lemma PointerToRowMisscaled(n: nat)
    requires n > 1
    ensures Product(Factors(Array(Int, n), Ptr(Array(Int, n)))) == 4
    ensures TypeSize(Array(Int, n)) == 4 * n
  {
    assert Factors(Array(Int, n), Ptr(Array(Int, n))) == [4];
  }

  /** Subscripting `a[e]` with an integer index is typed as the element of
      the array or the pointee of the pointer `a`, in either operand order. */
  lemma SubscriptType(a: Node, e: Node)
    requires TypeOf(a).Some? && (TypeOf(a).value.Array? || TypeOf(a).value.Ptr?)
    requires TypeOf(e).Some? && IsCInt(TypeOf(e).value)
    ensures AddNode(Add, a, e).Ok? && AddNode(Add, e, a).Ok?
    ensures PointeeOf(TypeOf(AddNode(Add, a, e).value)) == PointeeOf(TypeOf(a))
    ensures PointeeOf(TypeOf(AddNode(Add, e, a).value)) == PointeeOf(TypeOf(a))
  {
    assert Swapped(e, a);
  }

  /** The spelling of each binary operator. */
  function OpSymbol(op: Op): string {
    match op
    case Add => "+"
    case Sub => "-"
    case Mul => "*"
    case Div => "/"
    case Eq => "=="
    case Ne => "!="
    case Gt => ">"
    case Ge => ">="
    case Lt => "<"
    case Le => "<="
    case Asgmt => "="
  }

  /** A symbol token spelled as `op`. */
  predicate SymbolOf(t: Token, op: Op) {
    t.kind == Reserved && t.text == OpSymbol(op)
  }

  /** One step of the `equality` loop: `==` or `!=` after the tree so far
      makes it the left operand of a new `int` node, so a chain nests to the
      left. */
  lemma {:induction false} EqualityTailStep(op: Op, ts: seq<Token>, j: nat, tab: Table, d: Dialect, acc: Node, w: Head, b: Node, k: nat, h: Head)
    requires op == Eq || op == Ne
    requires ValidTokens(ts) && j + 1 < |ts| && WellFormed(tab) && SymbolOf(ts[j], op)
    requires ParseRelational(ts, j + 1, tab, d) == Ok((b, k, h))
    ensures EqualityTail(ts, j, tab, d, acc, w) == EqualityTail(ts, k, tab, d, Bin(op, Some(Int), acc, b), Later(w, h))
  {
    assert ts[j].text[..2] == OpSymbol(op);
  }

  /** One step of the `relational` loop: `<` and `<=` put the tree so far on
      the left of the new node, `>` and `>=` on its right; the chain nests
      to the left either way. */
  lemma {:induction false} RelationalTailStep(op: Op, ts: seq<Token>, j: nat, tab: Table, d: Dialect, acc: Node, w: Head, b: Node, k: nat, h: Head)
    requires op in {Lt, Le, Gt, Ge}
    requires ValidTokens(ts) && j + 1 < |ts| && WellFormed(tab) && SymbolOf(ts[j], op)
    requires ParseAdd(ts, j + 1, tab, d) == Ok((b, k, h))
    ensures op in {Lt, Le} ==>
      RelationalTail(ts, j, tab, d, acc, w) == RelationalTail(ts, k, tab, d, Bin(op, Some(Int), acc, b), Later(w, h))
    ensures op in {Gt, Ge} ==>
      RelationalTail(ts, j, tab, d, acc, w) == RelationalTail(ts, k, tab, d, Bin(op, Some(Int), b, acc), Later(w, h))
  {
    var t := ts[j].text;
    assert t[..|t|] == t;
    assert t[0] == OpSymbol(op)[0];
  }

  /** One step of the `add` loop: `+` or `-` after the tree so far hands it
      to `add_node` as the left operand; the loop goes on with the result,
      or stops with `add_node`'s type error. */
  lemma {:induction false} AddTailStep(op: Op, ts: seq<Token>, j: nat, tab: Table, d: Dialect, acc: Node, w: Head, b: Node, k: nat, h: Head)
    requires op == Add || op == Sub
    requires ValidTokens(ts) && j + 1 < |ts| && WellFormed(tab) && SymbolOf(ts[j], op)
    requires ParseMul(ts, j + 1, tab, d) == Ok((b, k, h))
    ensures AddNode(op, acc, b).Ok? ==>
      AddTail(ts, j, tab, d, acc, w) == AddTail(ts, k, tab, d, AddNode(op, acc, b).value, Later(w, h))
    ensures AddNode(op, acc, b).Err? ==> AddTail(ts, j, tab, d, acc, w) == Err(AddNode(op, acc, b).msg)
  {
    assert ts[j].text[..1] == OpSymbol(op);
    assert AddOp(ts[j]) == Some(op);
  }

  /** One step of the `mul` loop: `*` or `/` after the tree so far makes it
      the left operand of a new node typed as it. */
  lemma {:induction false} MulTailStep(op: Op, ts: seq<Token>, j: nat, tab: Table, d: Dialect, acc: Node, w: Head, b: Node, k: nat, h: Head)
    requires op == Mul || op == Div
    requires ValidTokens(ts) && j + 1 < |ts| && WellFormed(tab) && SymbolOf(ts[j], op)
    requires ParseUnary(ts, j + 1, tab, d) == Ok((b, k, h))
    ensures MulTail(ts, j, tab, d, acc, w) == MulTail(ts, k, tab, d, Bin(op, TypeOf(acc), acc, b), Later(w, h))
  {
    assert ts[j].text[..1] == OpSymbol(op);
  }

  // The list `arg_list` returns when an argument other than the last is a
  // call (expr.c:348-367).

  /** A one-character symbol that ends an argument: `,` or `)`. */
  predicate Closer(t: Token) {
    t.kind == Reserved && t.len == 1 && (t.text == "," || t.text == ")")
  }

  /** A postfix expression that starts with a name or a number and is
      followed by `,` or `)` is the whole expression: no level above
      `postfix` takes the next token. */
  lemma {:induction false} PostfixIsExpr(ts: seq<Token>, i: nat, tab: Table, d: Dialect, n: Node, j: nat, h: Head)
    requires ValidTokens(ts) && i < |ts| && WellFormed(tab)
    requires ts[i].kind == Ident || ts[i].kind == Number
    requires ParsePostfix(ts, i, tab, d) == Ok((n, j, h)) && Closer(ts[j])
    ensures ParseExpr(ts, i, tab, d) == Ok((n, j, h))
  {
    assert ParseUnary(ts, i, tab, d) == Ok((n, j, h));
    assert ParseMul(ts, i, tab, d) == Ok((n, j, h));
    assert ParseAdd(ts, i, tab, d) == Ok((n, j, h));
    assert ParseRelational(ts, i, tab, d) == Ok((n, j, h));
    assert ParseEquality(ts, i, tab, d) == Ok((n, j, h));
  }

  /** A number followed by `,` or `)` is an argument that writes nothing to
      `head`. */
  lemma {:induction false} NumberArgument(ts: seq<Token>, i: nat, tab: Table, d: Dialect)
    requires ValidTokens(ts) && i + 1 < |ts| && WellFormed(tab)
    requires ts[i].kind == Number && Closer(ts[i + 1])
    ensures ParseExpr(ts, i, tab, d) == Ok((Num(ts[i].val), i + 1, None))
  {
    assert ParsePostfix(ts, i, tab, d) == Ok((Num(ts[i].val), i + 1, None));
    PostfixIsExpr(ts, i, tab, d, Num(ts[i].val), i + 1, None);
  }

  /** The tokens of `g(1), 2)` from `i` on, `g` a name and `1`, `2`
      numbers. */
  predicate NestedCallAt(ts: seq<Token>, i: nat) {
    && i + 6 < |ts|
    && ts[i].kind == Ident
    && ts[i + 1].kind == Reserved && ts[i + 1].len == 1 && ts[i + 1].text == "("
    && ts[i + 2].kind == Number
    && ts[i + 3].kind == Reserved && ts[i + 3].len == 1 && ts[i + 3].text == ")"
    && ts[i + 4].kind == Reserved && ts[i + 4].len == 1 && ts[i + 4].text == ","
    && ts[i + 5].kind == Number
    && ts[i + 6].kind == Reserved && ts[i + 6].len == 1 && ts[i + 6].text == ")"
  }

  /** The argument list of the inner call `g(1)`. */
  function InnerArgs(ts: seq<Token>, i: nat): seq<Arg>
    requires i + 2 < |ts|
  {
    [Arg(Num(ts[i + 2].val), 1, ts[i + 2].text)]
  }

  /** `g(1)`, with `g` not declared, is a call of `g` that leaves its
      one-argument list in `head`. */
  lemma {:induction false} InnerCall(ts: seq<Token>, i: nat, tab: Table, d: Dialect)
    requires ValidTokens(ts) && WellFormed(tab) && NestedCallAt(ts, i)
    requires Find(tab, ts[i].text, tab.identifiers).None?
    ensures ParseExpr(ts, i, tab, d) ==
      Ok((Call(Some(ts[i].text), 0, InnerArgs(ts, i)), i + 4, Some(InnerArgs(ts, i))))
  {
    var l := InnerArgs(ts, i);
    assert !Equal(ts[i + 2], ")");
    assert Closer(ts[i + 3]);
    NumberArgument(ts, i + 2, tab, d);
    assert ArgList(ts, i + 2, tab, d, 0) == Ok((l, i + 3, Some(l)));
    assert CallSuffix(ts, i + 2, tab, d, Name(ts[i].text, ts[i].len)) ==
      Ok((Call(Some(ts[i].text), 0, l), i + 4, Some(l)));
    assert ParsePrimary(ts, i, tab, d) == Ok((Name(ts[i].text, ts[i].len), i + 1, None));
    assert ParsePostfix(ts, i, tab, d) == Ok((Call(Some(ts[i].text), 0, l), i + 4, Some(l)));
    assert Closer(ts[i + 4]);
    PostfixIsExpr(ts, i, tab, d, Call(Some(ts[i].text), 0, l), i + 4, Some(l));
  }

  /** The arguments of `f(g(1), 2)` after `f(`, parsed in dialect `d`. */
  lemma {:induction false} NestedCallArgs(ts: seq<Token>, i: nat, tab: Table, d: Dialect)
    requires ValidTokens(ts) && WellFormed(tab) && NestedCallAt(ts, i)
    requires Find(tab, ts[i].text, tab.identifiers).None?
    ensures ArgList(ts, i, tab, d, 0) ==
      var own := [Arg(Num(ts[i + 5].val), 2, ts[i + 5].text),
                  Arg(Call(Some(ts[i].text), 0, InnerArgs(ts, i)), 1, ts[i].text)];
      Ok((if d == AsWritten then InnerArgs(ts, i) else own, i + 6, Some(InnerArgs(ts, i))))
  {
    var l := InnerArgs(ts, i);
    assert !Equal(ts[i], ")");
    InnerCall(ts, i, tab, d);
    assert !Equal(ts[i + 5], ")");
    assert Closer(ts[i + 6]);
    NumberArgument(ts, i + 5, tab, d);
    var two := Arg(Num(ts[i + 5].val), 2, ts[i + 5].text);
    assert ArgList(ts, i + 5, tab, d, 1) == Ok(([two], i + 6, None));
    assert Equal(ts[i + 4], ",") && Consumes(ts[i + 4], ",");
    var own := [two, Arg(Call(Some(ts[i].text), 0, l), 1, ts[i].text)];
    var e := ParseExpr(ts, i, tab, d).value;
    assert e.1 + 1 == i + 5 && e.2 == Some(l);
    var rest := ArgList(ts, e.1 + 1, tab, d, 1).value;
    assert rest == ([two], i + 6, None);
    assert rest.0 + [Arg(e.0, 1, ts[i].text)] == own;
    assert ArgList(ts, i, tab, d, 0) == Ok(FrameResult(d, 0, own, i + 6, Later(rest.2, e.2)));
  }

  /** As written, `f(g(1), 2)` is a call of `f` with the one argument `1`:
      the list of `g`, which the second parse of `g(1)` left in `head`
      after `2` had pointed it at itself. */
  lemma {:induction false} NestedCallAsWritten(ts: seq<Token>, i: nat, tab: Table, callee: Node)
    requires ValidTokens(ts) && WellFormed(tab) && NestedCallAt(ts, i)
    requires Find(tab, ts[i].text, tab.identifiers).None?
    ensures CallSuffix(ts, i, tab, AsWritten, callee) ==
      Ok((Call(CallName(callee), 0, InnerArgs(ts, i)), i + 7, Some(InnerArgs(ts, i))))
  {
    NestedCallArgs(ts, i, tab, AsWritten);
  }

  /** Corrected, `f(g(1), 2)` is a call of `f` with its two arguments, the
      first being the call of `g`. */
  lemma {:induction false} NestedCallCorrected(ts: seq<Token>, i: nat, tab: Table, callee: Node)
    requires ValidTokens(ts) && WellFormed(tab) && NestedCallAt(ts, i)
    requires Find(tab, ts[i].text, tab.identifiers).None?
    ensures CallSuffix(ts, i, tab, Corrected, callee).Ok?
    ensures CallSuffix(ts, i, tab, Corrected, callee).value.0 ==
      Call(CallName(callee), 0, [Arg(Num(ts[i + 5].val), 2, ts[i + 5].text),
                                 Arg(Call(Some(ts[i].text), 0, InnerArgs(ts, i)), 1, ts[i].text)])
  {
    NestedCallArgs(ts, i, tab, Corrected);
  }

  /** As written, a call as the first of several arguments decides the whole
      list, whatever follows it: its own list comes back in place of the
      arguments, so `f(g(1), 2, 3, 4, 5, 6, 7)` passes the six-argument
      check with one argument. */
  lemma {:induction false} FirstArgumentCallWins(ts: seq<Token>, i: nat, tab: Table, a: Node, j: nat, l: seq<Arg>,
                              rest: seq<Arg>, k: nat, w: Head)
    requires ValidTokens(ts) && i < |ts| && WellFormed(tab) && !Equal(ts[i], ")")
    requires ParseExpr(ts, i, tab, AsWritten) == Ok((a, j, Some(l)))
    requires Equal(ts[j], ",") && Consumes(ts[j], ",")
    requires ArgList(ts, j + 1, tab, AsWritten, 1) == Ok((rest, k, w)) && |rest| > 0
    ensures ArgList(ts, i, tab, AsWritten, 0) == Ok((l, k, Some(l)))
    ensures |l| <= 6
  {
  }
}
