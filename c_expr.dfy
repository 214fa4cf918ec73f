/// The expressions of the typed front end (expr.c): syntax-tree nodes with
/// their types, the pointer-arithmetic builder `add_node`, and the grammar
/// from `expr` down to `primary` and `arg_list`, as functions of the token
/// list, a cursor and the symbol table the parser consults. Nodes are values;
/// each C constructor is a datatype constructor.

module CExpr {
  import opened Util
  import opened Types
  import opened Sym
  import opened CLex
  import opened CTokens

  /** The operator kinds of binary nodes. */
  datatype Op = Add | Sub | Mul | Div | Eq | Ne | Gt | Ge | Lt | Le | Asgmt

  /** A syntax-tree node. Expressions carry the `type` pointer the C code
      stores, `None` where it stays `NULL`. Statement nodes are built by
      stmt.c; an empty block holds one `NullStmt`. */
  datatype Node =
    | Num(val: int)
    | LVar(offset: int, vty: Type)
    | Name(name: string, len: nat)
    | Bin(op: Op, ty: Option<Type>, left: Node, right: Node)
    | DerefNode(ty: Option<Type>, operand: Node)
    | AddrNode(pty: Type, operand: Node)
    | Call(fname: Option<string>, len: nat, args: seq<Arg>)
    | NullStmt
    | ExprStmt(expr: Node)
    | ReturnStmt(value: Node)
    | IfStmt(cond: Node, body: Node, els: Option<Node>)
    | ForStmt(init: Option<Node>, test: Option<Node>, step: Option<Node>, body: Node)
    | WhileStmt(cond: Node, body: Node)
    | Block(stmts: seq<Node>)

  /** An argument of a call: the node, its 1-based position `ireg`, and
      `name`, the text of the argument's first token. */
  datatype Arg = Arg(node: Node, ireg: nat, name: string)

  const Untyped := "type error: operand has no type"
  const CannotAdd := "type error: cannot add/substract operand"
  const NotInt := "type error: not an int"
  const TooManyArgs := "more than 6 arguments"
  const MissingArgument := "missing argument after ','"
  const NoSize := "type error: operand has no size"
  const DivByZero := "division by zero"

  /** A node's `type`. A number and a call get a zeroed type record, which
      is taken to be `int`; a name that is not declared gets none. */
  function TypeOf(n: Node): (r: Option<Type>)
    ensures n.Num? || n.Call? ==> r == Some(Int)
    ensures n.Name? ==> r.None?
    ensures r.Some? && r.value.Array? ==> Retypable(n)
  {
    match n
    case Num(_) => Some(Int)
    case LVar(_, t) => Some(t)
    case Bin(_, t, _, _) => t
    case DerefNode(t, _) => t
    case AddrNode(t, _) => Some(t)
    case Call(_, _, _) => Some(Int)
    case _ => None
  }

  /** The nodes `retype` can copy with another type. */
  predicate Retypable(n: Node) { n.LVar? || n.Bin? || n.DerefNode? || n.AddrNode? }

  /** `r` is `n` with its type changed and every other field kept. */
  predicate SameButType(r: Node, n: Node) {
    match n
    case LVar(o, _) => r.LVar? && r.offset == o
    case Bin(k, _, l, x) => r.Bin? && r.op == k && r.left == l && r.right == x
    case DerefNode(_, x) => r.DerefNode? && r.operand == x
    case AddrNode(_, x) => r.AddrNode? && r.operand == x
    case _ => r == n
  }

  /** Two types with the same `ty` tag. */
  predicate SameKind(a: Type, b: Type) {
    (a.Int? && b.Int?) || (a.Char? && b.Char?) || (a.Ptr? && b.Ptr?) ||
    (a.Array? && b.Array?) || (a.Function? && b.Function?)
  }

  /** `retype(p, type)`: `p` itself when its type has `type`'s tag,
      otherwise a copy of `p` carrying `type`. */
  function Retype(n: Node, t: Type): (r: Node)
    requires Retypable(n) && TypeOf(n).Some?
    ensures SameKind(TypeOf(n).value, t) ==> r == n
    ensures !SameKind(TypeOf(n).value, t) ==> TypeOf(r) == Some(t) && SameButType(r, n)
  {
    if SameKind(TypeOf(n).value, t) then n
    else match n
      case LVar(o, _) => LVar(o, t)
      case Bin(k, _, l, x) => Bin(k, Some(t), l, x)
      case DerefNode(_, x) => DerefNode(Some(t), x)
      case AddrNode(_, x) => AddrNode(t, x)
  }

  /** `pointer(p)`: an array-typed node decays to the same node typed as a
      pointer to the element; any other node is returned as it is. */
  function Pointer(n: Node): (r: Node)
    requires TypeOf(n).Some?
    ensures TypeOf(n).value.Array? ==>
      TypeOf(r) == Some(PtrTo(TypeOf(n).value.elem)) && SameButType(r, n)
    ensures !TypeOf(n).value.Array? ==> r == n
    ensures TypeOf(r).Some? && !TypeOf(r).value.Array?
  {
    if IsArray(TypeOf(n).value) then Retype(n, Atop(TypeOf(n).value).value) else n
  }

  /** The factors the integer operand of pointer arithmetic is multiplied
      by: 4 for a pointee that is `int` or an array, 8 for a pointer, none
      for `char` (or a function), then the row length when the left operand
      is an array of arrays. */
  function Factors(pointee: Type, lt: Type): (r: seq<nat>) {
    (match pointee
     case Int => [4]
     case Array(_, _) => [4]
     case Ptr(_) => [8]
     case _ => [])
    + (if lt.Array? && lt.elem.Array? then [lt.elem.count] else [])
  }

  /** `q` multiplied by each factor in turn; every product node is typed as
      `q`. */
  function MulBy(q: Node, fs: seq<nat>): (r: Node)
    ensures TypeOf(r) == TypeOf(q)
    decreases |fs|
  {
    if |fs| == 0 then q else MulBy(Bin(Mul, TypeOf(q), q, Num(fs[0])), fs[1..])
  }

  /** The operand types `add_node` accepts after decay: two integers, a
      pointer and an integer, or an integer and a pointer. */
  predicate Addable(p: Type, q: Type) {
    (IsCInt(p) && IsCInt(q)) || (IsPtr(p) && IsCInt(q)) || (IsCInt(p) && IsPtr(q))
  }

  /** The `int + pointer` case, which `add_node` swaps. */
  predicate Swapped(lhs: Node, rhs: Node) {
    && TypeOf(lhs).Some? && TypeOf(rhs).Some?
    && IsCInt(TypeOf(Pointer(lhs)).value) && IsPtr(TypeOf(Pointer(rhs)).value)
  }

  /** `add_node(kind, lhs, rhs)` for `+` and `-`: after arrays decay, two
      integers give a plain node typed as the left operand; a pointer and an
      integer (in either order: the pointer is moved to the left, for `-`
      too) give a node that keeps the original pointer-side operand and its
      type, with the integer operand scaled by the pointee's size; anything
      else is a type error. */
  function AddNode(op: Op, lhs: Node, rhs: Node): (r: Result<Node>)
    ensures r.Ok? <==> (TypeOf(lhs).Some? && TypeOf(rhs).Some? &&
                        Addable(TypeOf(Pointer(lhs)).value, TypeOf(Pointer(rhs)).value))
    ensures r.Ok? && IsCInt(TypeOf(Pointer(lhs)).value) && IsCInt(TypeOf(Pointer(rhs)).value) ==>
      r.value == Bin(op, TypeOf(lhs), lhs, rhs)
    ensures r.Ok? && IsPtr(TypeOf(Pointer(lhs)).value) ==>
      r.value == Bin(op, TypeOf(lhs), lhs,
        MulBy(rhs, Factors(TypeOf(Pointer(lhs)).value.to, TypeOf(lhs).value)))
    ensures r.Ok? && Swapped(lhs, rhs) ==>
      r.value == Bin(op, TypeOf(rhs), rhs,
        MulBy(lhs, Factors(TypeOf(Pointer(rhs)).value.to, TypeOf(rhs).value)))
    decreases if Swapped(lhs, rhs) then 1 else 0
  {
    if TypeOf(lhs).None? || TypeOf(rhs).None? then Err(Untyped)
    else
      var p := Pointer(lhs);
      var q := Pointer(rhs);
      var pt := TypeOf(p).value;
      var qt := TypeOf(q).value;
      if IsCInt(pt) && IsCInt(qt) then Ok(Bin(op, Some(pt), p, q))
      else if IsPtr(qt) && IsCInt(pt) then AddNode(op, rhs, lhs)
      else if !IsPtr(pt) || !IsCInt(qt) then Err(CannotAdd)
      else Ok(Bin(op, TypeOf(lhs), lhs, MulBy(q, Factors(pt.to, TypeOf(lhs).value))))
  }

  /** The pointee of a type as `p->type->ptr_to` reads it: `NULL` for
      `int` and `char`. */
  function PointeeOf(t: Option<Type>): (r: Option<Type>)
    ensures t.Some? && t.value.Ptr? ==> r == Some(t.value.to)
    ensures t.Some? && t.value.Array? ==> r == Some(t.value.elem)
    ensures t.None? || IsCInt(t.value) ==> r.None?
  {
    match t
    case Some(Ptr(p)) => Some(p)
    case Some(Array(e, _)) => Some(e)
    case Some(Function(rt)) => Some(rt)
    case _ => None
  }

  /** The `len` field of a node: the name length of an undeclared name, the
      field a call copies from its first argument node, zero elsewhere. */
  function LenField(n: Node): nat {
    match n
    case Name(_, l) => l
    case Call(_, l, _) => l
    case _ => 0
  }

  /** `sizeof`'s value: `type_size` of the operand's type; for a product or
      quotient node that size is multiplied or divided by the node's `val`,
      which a binary node leaves zero, so a product gives 0 and a quotient
      divides by zero. */
  function SizeOf(n: Node): (r: Result<int>)
    ensures r.Ok? ==> TypeOf(n).Some? && Sized(TypeOf(n).value)
    ensures TypeOf(n).Some? && Sized(TypeOf(n).value) && !(n.Bin? && n.op in {Mul, Div}) ==>
      r == Ok(TypeSize(TypeOf(n).value))
    ensures n.Bin? && n.op == Mul && TypeOf(n).Some? && Sized(TypeOf(n).value) ==> r == Ok(0)
    ensures n.Bin? && n.op == Div ==> r.Err?
  {
    match TypeOf(n)
    case None => Err(Untyped)
    case Some(t) =>
      if !Sized(t) then Err(NoSize)
      else if n.Bin? && n.op == Mul then Ok(TypeSize(t) * 0)
      else if n.Bin? && n.op == Div then Err(DivByZero)
      else Ok(TypeSize(t))
  }

  /** The type of a node that must have one, as the C code dereferences it. */
  function Typed(n: Node): (r: Result<Type>)
    ensures r.Ok? <==> TypeOf(n).Some?
    ensures r.Ok? ==> r.value == TypeOf(n).value
  {
    match TypeOf(n)
    case None => Err(Untyped)
    case Some(t) => Ok(t)
  }

  /** The `name` a call node copies from the callee node: set only for an
      undeclared name. */
  function CallName(p: Node): Option<string> {
    if p.Name? then Some(p.name) else None
  }

  /** What a parse leaves in the global `head` (its `next` field) that
      `arg_list` links through: `Some(args)` when the parse last pointed it
      at the argument list `args` of a call, `None` when it did not write
      it. */
  type Head = Option<seq<Arg>>

  /** `head` after one stretch of parsing and then another. */
  function Later(h: Head, k: Head): Head {
    if k.Some? then k else h
  }

  /** The argument list of a call as `postfix` accepts it: at most six
      arguments, the first (the last one written) carrying the count and each
      following one the number before. */
  predicate Numbered(args: seq<Arg>) {
    |args| <= 6 && forall k :: 0 <= k < |args| ==> args[k].ireg == |args| - k
  }

  /** A list left in `head` is one `postfix` accepted. */
  predicate HeadOk(h: Head) {
    h.Some? ==> |h.value| > 0 && Numbered(h.value)
  }

  /** A node, the cursor after it, and what the parse left in `head`. */
  type Parsed = Result<(Node, nat, Head)>

  /** `expr = assign` (the comma operator is not implemented). */
  function ParseExpr(ts: seq<Token>, i: nat, tab: Table, d: Dialect): (r: Parsed)
    requires ValidTokens(ts) && i < |ts| && WellFormed(tab)
    ensures r.Ok? ==> i < r.value.1 < |ts| && HeadOk(r.value.2)
    decreases |ts| - i, 9
  {
    ParseAssign(ts, i, tab, d)
  }

  /** `assign`: right-recursive; the node is typed as its left side. */
  function ParseAssign(ts: seq<Token>, i: nat, tab: Table, d: Dialect): (r: Parsed)
    requires ValidTokens(ts) && i < |ts| && WellFormed(tab)
    ensures r.Ok? ==> i < r.value.1 < |ts| && HeadOk(r.value.2)
    decreases |ts| - i, 8
  {
    var left :- ParseEquality(ts, i, tab, d);
    if Consumes(ts[left.1], "=") then
      var right :- ParseAssign(ts, left.1 + 1, tab, d);
      Ok((Bin(Asgmt, TypeOf(left.0), left.0, right.0), right.1, Later(left.2, right.2)))
    else Ok(left)
  }

  function ParseEquality(ts: seq<Token>, i: nat, tab: Table, d: Dialect): (r: Parsed)
    requires ValidTokens(ts) && i < |ts| && WellFormed(tab)
    ensures r.Ok? ==> i < r.value.1 < |ts| && HeadOk(r.value.2)
    decreases |ts| - i, 7
  {
    var left :- ParseRelational(ts, i, tab, d);
    EqualityTail(ts, left.1, tab, d, left.0, left.2)
  }

  /** The operator a token starts in the `equality` loop. */
  function EqualityOp(t: Token): (r: Option<Op>)
    ensures r.Some? ==> r.value in {Eq, Ne}
  {
    if Consumes(t, "==") then Some(Eq)
    else if Consumes(t, "!=") then Some(Ne)
    else None
  }

  /** The loop of `equality`: each `==` or `!=` makes an `int` node of the
      tree so far and the next operand. `w` is what the loop has left in
      `head` so far. */
  function EqualityTail(ts: seq<Token>, i: nat, tab: Table, d: Dialect, acc: Node, w: Head): (r: Parsed)
    requires ValidTokens(ts) && i < |ts| && WellFormed(tab)
    ensures r.Ok? ==> i <= r.value.1 < |ts|
    ensures r.Ok? && HeadOk(w) ==> HeadOk(r.value.2)
    decreases |ts| - i, 0
  {
    match EqualityOp(ts[i])
    case None => Ok((acc, i, w))
    case Some(op) =>
      var right :- ParseRelational(ts, i + 1, tab, d);
      EqualityTail(ts, right.1, tab, d, Bin(op, Some(Int), acc, right.0), Later(w, right.2))
  }

  function ParseRelational(ts: seq<Token>, i: nat, tab: Table, d: Dialect): (r: Parsed)
    requires ValidTokens(ts) && i < |ts| && WellFormed(tab)
    ensures r.Ok? ==> i < r.value.1 < |ts| && HeadOk(r.value.2)
    decreases |ts| - i, 6
  {
    var left :- ParseAdd(ts, i, tab, d);
    RelationalTail(ts, left.1, tab, d, left.0, left.2)
  }

  /** The comparison a token starts, in the order the loop tries them. */
  function RelationalOp(t: Token): (r: Option<Op>)
    ensures r.Some? ==> r.value in {Ge, Le, Gt, Lt}
  {
    if Consumes(t, ">=") then Some(Ge)
    else if Consumes(t, "<=") then Some(Le)
    else if Consumes(t, ">") then Some(Gt)
    else if Consumes(t, "<") then Some(Lt)
    else None
  }

  /** `>=` and `>` put the new operand on the left. */
  function Compare(op: Op, acc: Node, operand: Node): Node {
    if op == Ge || op == Gt then Bin(op, Some(Int), operand, acc) else Bin(op, Some(Int), acc, operand)
  }

  function RelationalTail(ts: seq<Token>, i: nat, tab: Table, d: Dialect, acc: Node, w: Head): (r: Parsed)
    requires ValidTokens(ts) && i < |ts| && WellFormed(tab)
    ensures r.Ok? ==> i <= r.value.1 < |ts|
    ensures r.Ok? && HeadOk(w) ==> HeadOk(r.value.2)
    decreases |ts| - i, 0
  {
    match RelationalOp(ts[i])
    case None => Ok((acc, i, w))
    case Some(op) =>
      var operand :- ParseAdd(ts, i + 1, tab, d);
      RelationalTail(ts, operand.1, tab, d, Compare(op, acc, operand.0), Later(w, operand.2))
  }

  function ParseAdd(ts: seq<Token>, i: nat, tab: Table, d: Dialect): (r: Parsed)
    requires ValidTokens(ts) && i < |ts| && WellFormed(tab)
    ensures r.Ok? ==> i < r.value.1 < |ts| && HeadOk(r.value.2)
    decreases |ts| - i, 5
  {
    var left :- ParseMul(ts, i, tab, d);
    AddTail(ts, left.1, tab, d, left.0, left.2)
  }

  /** The operator a token starts in the `add` loop. */
  function AddOp(t: Token): (r: Option<Op>)
    ensures r.Some? ==> r.value in {Add, Sub}
  {
    if Consumes(t, "+") then Some(Add)
    else if Consumes(t, "-") then Some(Sub)
    else None
  }

  /** The loop of `add`: every `+` and `-` goes through `add_node`. */
  function AddTail(ts: seq<Token>, i: nat, tab: Table, d: Dialect, acc: Node, w: Head): (r: Parsed)
    requires ValidTokens(ts) && i < |ts| && WellFormed(tab)
    ensures r.Ok? ==> i <= r.value.1 < |ts|
    ensures r.Ok? && HeadOk(w) ==> HeadOk(r.value.2)
    decreases |ts| - i, 0
  {
    match AddOp(ts[i])
    case None => Ok((acc, i, w))
    case Some(op) =>
      var right :- ParseMul(ts, i + 1, tab, d);
      var sum :- AddNode(op, acc, right.0);
      AddTail(ts, right.1, tab, d, sum, Later(w, right.2))
  }

  function ParseMul(ts: seq<Token>, i: nat, tab: Table, d: Dialect): (r: Parsed)
    requires ValidTokens(ts) && i < |ts| && WellFormed(tab)
    ensures r.Ok? ==> i < r.value.1 < |ts| && HeadOk(r.value.2)
    decreases |ts| - i, 4
  {
    var left :- ParseUnary(ts, i, tab, d);
    MulTail(ts, left.1, tab, d, left.0, left.2)
  }

  /** The loop of `mul`: products and quotients are typed as the tree so
      far, without a type check. */
  function MulTail(ts: seq<Token>, i: nat, tab: Table, d: Dialect, acc: Node, w: Head): (r: Parsed)
    requires ValidTokens(ts) && i < |ts| && WellFormed(tab)
    ensures r.Ok? ==> i <= r.value.1 < |ts|
    ensures r.Ok? && HeadOk(w) ==> HeadOk(r.value.2)
    decreases |ts| - i, 0
  {
    match MulOp(ts[i])
    case None => Ok((acc, i, w))
    case Some(op) =>
      var right :- ParseUnary(ts, i + 1, tab, d);
      MulTail(ts, right.1, tab, d, Bin(op, TypeOf(acc), acc, right.0), Later(w, right.2))
  }

  /** The operator a token starts in the `mul` loop. */
  function MulOp(t: Token): (r: Option<Op>)
    ensures r.Some? ==> r.value in {Mul, Div}
  {
    if Consumes(t, "*") then Some(Mul)
    else if Consumes(t, "/") then Some(Div)
    else None
  }

  /** `unary`: `sizeof` folds to a number; `*` dereferences a pointer or an
      array; `&` takes an address; unary `+` and `-` apply to a primary
      only, and `-` needs an `int`. */
  function ParseUnary(ts: seq<Token>, i: nat, tab: Table, d: Dialect): (r: Parsed)
    requires ValidTokens(ts) && i < |ts| && WellFormed(tab)
    ensures r.Ok? ==> i < r.value.1 < |ts| && HeadOk(r.value.2)
    decreases |ts| - i, 3
  {
    if ts[i].kind == Sizeof then SizeofExpr(ts, i + 1, tab, d)
    else if Consumes(ts[i], "*") then DerefExpr(ts, i + 1, tab, d)
    else if Consumes(ts[i], "&") then AddrExpr(ts, i + 1, tab, d)
    else if Consumes(ts[i], "+") then ParsePrimary(ts, i + 1, tab, d)
    else if Consumes(ts[i], "-") then NegExpr(ts, i + 1, tab, d)
    else ParsePostfix(ts, i, tab, d)
  }

  /** The operand of `sizeof`, folded to its size. */
  function SizeofExpr(ts: seq<Token>, i: nat, tab: Table, d: Dialect): (r: Parsed)
    requires ValidTokens(ts) && i < |ts| && WellFormed(tab)
    ensures r.Ok? ==> i < r.value.1 < |ts| && HeadOk(r.value.2)
    decreases |ts| - i, 11
  {
    var e :- ParseUnary(ts, i, tab, d);
    var size :- SizeOf(e.0);
    Ok((Num(size), e.1, e.2))
  }

  /** The operand of unary `*`, which must have a pointee. */
  function DerefExpr(ts: seq<Token>, i: nat, tab: Table, d: Dialect): (r: Parsed)
    requires ValidTokens(ts) && i < |ts| && WellFormed(tab)
    ensures r.Ok? ==> i < r.value.1 < |ts| && HeadOk(r.value.2)
    decreases |ts| - i, 11
  {
    var e :- ParseUnary(ts, i, tab, d);
    var t :- Typed(e.0);
    var pointee :- Deref(t);
    Ok((DerefNode(Some(pointee), e.0), e.1, e.2))
  }

  /** The operand of unary `&`. */
  function AddrExpr(ts: seq<Token>, i: nat, tab: Table, d: Dialect): (r: Parsed)
    requires ValidTokens(ts) && i < |ts| && WellFormed(tab)
    ensures r.Ok? ==> i < r.value.1 < |ts| && HeadOk(r.value.2)
    decreases |ts| - i, 11
  {
    var e :- ParseUnary(ts, i, tab, d);
    var t :- Typed(e.0);
    Ok((AddrNode(PtrTo(t), e.0), e.1, e.2))
  }

  /** The primary after unary `-`, which must be an `int`. */
  function NegExpr(ts: seq<Token>, i: nat, tab: Table, d: Dialect): (r: Parsed)
    requires ValidTokens(ts) && i < |ts| && WellFormed(tab)
    ensures r.Ok? ==> i < r.value.1 < |ts| && HeadOk(r.value.2)
    decreases |ts| - i, 11
  {
    var e :- ParsePrimary(ts, i, tab, d);
    var t :- Typed(e.0);
    if !IsInt(t) then Err(NotInt) else Ok((Bin(Sub, Some(t), Num(0), e.0), e.1, e.2))
  }

  function ParsePostfix(ts: seq<Token>, i: nat, tab: Table, d: Dialect): (r: Parsed)
    requires ValidTokens(ts) && i < |ts| && WellFormed(tab)
    ensures r.Ok? ==> i < r.value.1 < |ts| && HeadOk(r.value.2)
    decreases |ts| - i, 2
  {
    var p :- ParsePrimary(ts, i, tab, d);
    PostfixTail(ts, p.1, tab, d, p.0, p.2)
  }

  /** The loop of `postfix`: subscripts until a call, which ends the
      loop, or any other token. */
  function PostfixTail(ts: seq<Token>, i: nat, tab: Table, d: Dialect, acc: Node, w: Head): (r: Parsed)
    requires ValidTokens(ts) && i < |ts| && WellFormed(tab)
    ensures r.Ok? ==> i <= r.value.1 < |ts|
    ensures r.Ok? && HeadOk(w) ==> HeadOk(r.value.2)
    decreases |ts| - i, 0
  {
    if Consumes(ts[i], "[") then
      var s :- Subscript(ts, i + 1, tab, d, acc);
      PostfixTail(ts, s.1, tab, d, s.0, Later(w, s.2))
    else if Consumes(ts[i], "(") then
      var c :- CallSuffix(ts, i + 1, tab, d, acc);
      Ok((c.0, c.1, Later(w, c.2)))
    else Ok((acc, i, w))
  }

  /** The subscript after `[`: `p[e]` is `*(p + e)` typed as the sum's
      pointee. */
  function Subscript(ts: seq<Token>, i: nat, tab: Table, d: Dialect, acc: Node): (r: Parsed)
    requires ValidTokens(ts) && i < |ts| && WellFormed(tab)
    ensures r.Ok? ==> i < r.value.1 < |ts| && HeadOk(r.value.2)
    decreases |ts| - i, 11
  {
    var q :- ParseExpr(ts, i, tab, d);
    if !Consumes(ts[q.1], "]") then Err(ExpectMsg("]"))
    else
      var sum :- AddNode(Add, acc, q.0);
      Ok((DerefNode(PointeeOf(TypeOf(sum)), sum), q.1 + 1, q.2))
  }

  /** The call after `(`: the list `arg_list` returns, refused when its
      head is numbered above 6, then `)`. A call with arguments leaves that
      list in `head`. */
  function CallSuffix(ts: seq<Token>, i: nat, tab: Table, d: Dialect, acc: Node): (r: Parsed)
    requires ValidTokens(ts) && i < |ts| && WellFormed(tab)
    ensures r.Ok? ==> i < r.value.1 < |ts| && HeadOk(r.value.2)
    decreases |ts| - i, 11
  {
    var args :- ArgList(ts, i, tab, d, 0);
    if |args.0| > 0 && args.0[0].ireg > 6 then Err(TooManyArgs)
    else if !Consumes(ts[args.1], ")") then Err(ExpectMsg(")"))
    else
      var len := if |args.0| > 0 then LenField(args.0[0].node) else 0;
      Ok((Call(CallName(acc), len, args.0), args.1 + 1, args.2))
  }

  /** `primary`: a parenthesised expression, an identifier (a variable
      node when `lookup` from the innermost scope finds it, a bare name
      otherwise), or a number. */
  function ParsePrimary(ts: seq<Token>, i: nat, tab: Table, d: Dialect): (r: Parsed)
    requires ValidTokens(ts) && i < |ts| && WellFormed(tab)
    ensures r.Ok? ==> i < r.value.1 < |ts| && HeadOk(r.value.2)
    decreases |ts| - i, 1
  {
    if Consumes(ts[i], "(") then
      var e :- ParseExpr(ts, i + 1, tab, d);
      if !Consumes(ts[e.1], ")") then Err(ExpectMsg(")")) else Ok((e.0, e.1 + 1, e.2))
    else if ts[i].kind == Ident then
      match Find(tab, ts[i].text, tab.identifiers)
      case None => Ok((Name(ts[i].text, ts[i].len), i + 1, None))
      case Some(v) => Ok((LVar(tab.vars[v].offset, tab.vars[v].ty), i + 1, None))
    else if ts[i].kind == Number then Ok((Num(ts[i].val), i + 1, None))
    else Err(NotANumber)
  }

  /** What a frame of `arg_list` returns, given `own`, its argument behind
      those of the deeper frames, and `w`, what the frame's parsing left in
      `head` after the last argument pointed `head.next` at itself (`None`
      if nothing did). A deeper frame returns its own argument, to which the
      frame above links its own; the top frame returns `head.next`, which
      is the list it built only if nothing wrote it after the last argument.
      Corrected, the top frame returns the list it built. */
  function FrameResult(d: Dialect, depth: nat, own: seq<Arg>, j: nat, w: Head): (seq<Arg>, nat, Head) {
    if depth > 0 then (own, j, w)
    else
      var h := if w.Some? then w.value else own;
      (if d == AsWritten then h else own, j, Some(h))
  }

  /** `arg_list(depth)`: the arguments up to the closing parenthesis, last
      first, each numbered with its 1-based position after `depth`, so the
      first entry carries the count; an empty list is `NULL`. Every
      argument is parsed twice, the second time from its first token to
      build the node, and the second parses of all arguments but the last
      come after the last argument has pointed `head.next` at itself: a
      call among them (`f(g(1), 2)`) leaves its own list there, and the
      source as written returns that list for the whole call. */
  function ArgList(ts: seq<Token>, i: nat, tab: Table, d: Dialect, depth: nat): (r: Result<(seq<Arg>, nat, Head)>)
    requires ValidTokens(ts) && i < |ts| && WellFormed(tab)
    ensures r.Ok? ==> i <= r.value.1 < |ts|
    ensures r.Ok? ==> forall k :: 0 <= k < |r.value.0| ==> r.value.0[k].ireg == depth + |r.value.0| - k
    ensures r.Ok? && |r.value.0| == 0 ==> r.value.1 == i && r.value.2.None?
    ensures r.Ok? && depth > 0 ==> HeadOk(r.value.2)
    ensures r.Ok? && depth == 0 && |r.value.0| > 0 ==>
      r.value.2.Some? && (HeadOk(r.value.2) || r.value.2.value == r.value.0)
    ensures r.Ok? && depth == 0 && |r.value.0| > 0 && d == AsWritten ==> r.value.2 == Some(r.value.0)
    ensures r.Ok? && |r.value.0| > 0 && (depth > 0 || d == Corrected) ==>
      ParseExpr(ts, i, tab, d).Ok? &&
      r.value.0[|r.value.0| - 1] == Arg(ParseExpr(ts, i, tab, d).value.0, depth + 1, ts[i].text)
    decreases |ts| - i, 10
  {
    if Equal(ts[i], ")") then Ok(([], i, None))
    else
      var e :- ParseExpr(ts, i, tab, d);
      var car := Arg(e.0, depth + 1, ts[i].text);
      if !Equal(ts[e.1], ",") then Ok(FrameResult(d, depth, [car], e.1, None))
      else if !Consumes(ts[e.1], ",") then Err(ExpectMsg(","))
      else
        var rest :- ArgList(ts, e.1 + 1, tab, d, depth + 1);
        if |rest.0| == 0 then Err(MissingArgument)
        else Ok(FrameResult(d, depth, rest.0 + [car], rest.1, Later(rest.2, e.2)))
  }
}
