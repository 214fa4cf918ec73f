/// Recursive-descent parser of the calculator compiler (tinycc.c).
///
///   expr       = equality
///   equality   = relational ("==" relational | "!=" relational)*
///   relational = add ("<" add | "<=" add | ">" add | ">=" add)*
///   add        = mul ("+" mul | "-" mul)*
///   mul        = unary ("*" unary | "/" unary)*
///   unary      = ("+" | "-")? primary
///   primary    = num | "(" expr ")"
///
/// The grammar is first given as functions over a token sequence and a cursor
/// (the reference definition); the class `Parser` then has one method per C
/// function, moving its `pos` field as the C code moves the global `token`
/// cursor, and each method is proved to agree with its function.

module CalcParse {
  import opened Util
  import opened CalcLex
  import opened BinOps

  /** Syntax tree. `Bin(Gt, l, r)` and `Bin(Ge, l, r)` hold their operands in
      reverse source order: the parser builds `a > b` as `Bin(Gt, b, a)`. */
  datatype Node = Num(val: int) | Bin(op: BinOp, left: Node, right: Node)

  /** A token sequence as the tokenizer returns it: it ends with the end marker. */
  predicate ValidTokens(ts: seq<Token>) { |ts| > 0 && ts[|ts| - 1].kind == Eof }

  /** `consume(op)` accepts token `t`: a symbol token whose characters, read
      from its start in the input, begin with `op`. */
  predicate Matches(t: Token, op: string) { t.kind == Reserved && StartsWith(t.str, op) }

  function ExpectMsg(op: string): string { "expected '" + op + "'" }

  const NotANumber := "not a number"

  /** A parse result: the tree and the cursor after it. */
  type Parsed = Result<(Node, nat)>

  function ParseExpr(ts: seq<Token>, i: nat): (r: Parsed)
    requires ValidTokens(ts) && i < |ts|
    ensures r.Ok? ==> i < r.value.1 < |ts|
    decreases |ts| - i, 7
  {
    ParseEquality(ts, i)
  }

  function ParseEquality(ts: seq<Token>, i: nat): (r: Parsed)
    requires ValidTokens(ts) && i < |ts|
    ensures r.Ok? ==> i < r.value.1 < |ts|
    decreases |ts| - i, 6
  {
    var left :- ParseRelational(ts, i);
    EqualityTail(ts, left.1, left.0)
  }

  /** The `for (;;)` loop of `equality`, with `acc` the tree built so far. */
  function EqualityTail(ts: seq<Token>, i: nat, acc: Node): (r: Parsed)
    requires ValidTokens(ts) && i < |ts|
    ensures r.Ok? ==> i <= r.value.1 < |ts|
    decreases |ts| - i, 6
  {
    if Matches(ts[i], "==") then
      var right :- ParseRelational(ts, i + 1);
      EqualityTail(ts, right.1, Bin(Eq, acc, right.0))
    else if Matches(ts[i], "!=") then
      var right :- ParseRelational(ts, i + 1);
      EqualityTail(ts, right.1, Bin(Ne, acc, right.0))
    else Ok((acc, i))
  }

  function ParseRelational(ts: seq<Token>, i: nat): (r: Parsed)
    requires ValidTokens(ts) && i < |ts|
    ensures r.Ok? ==> i < r.value.1 < |ts|
    decreases |ts| - i, 5
  {
    var left :- ParseAdd(ts, i);
    RelationalTail(ts, left.1, left.0)
  }

  /** The loop of `relational`: `>=` and `>` put the new operand on the left. */
  function RelationalTail(ts: seq<Token>, i: nat, acc: Node): (r: Parsed)
    requires ValidTokens(ts) && i < |ts|
    ensures r.Ok? ==> i <= r.value.1 < |ts|
    decreases |ts| - i, 5
  {
    if Matches(ts[i], ">=") then
      var left :- ParseAdd(ts, i + 1);
      RelationalTail(ts, left.1, Bin(Ge, left.0, acc))
    else if Matches(ts[i], "<=") then
      var right :- ParseAdd(ts, i + 1);
      RelationalTail(ts, right.1, Bin(Le, acc, right.0))
    else if Matches(ts[i], ">") then
      var left :- ParseAdd(ts, i + 1);
      RelationalTail(ts, left.1, Bin(Gt, left.0, acc))
    else if Matches(ts[i], "<") then
      var right :- ParseAdd(ts, i + 1);
      RelationalTail(ts, right.1, Bin(Lt, acc, right.0))
    else Ok((acc, i))
  }

  function ParseAdd(ts: seq<Token>, i: nat): (r: Parsed)
    requires ValidTokens(ts) && i < |ts|
    ensures r.Ok? ==> i < r.value.1 < |ts|
    decreases |ts| - i, 4
  {
    var left :- ParseMul(ts, i);
    AddTail(ts, left.1, left.0)
  }

  function AddTail(ts: seq<Token>, i: nat, acc: Node): (r: Parsed)
    requires ValidTokens(ts) && i < |ts|
    ensures r.Ok? ==> i <= r.value.1 < |ts|
    decreases |ts| - i, 4
  {
    if Matches(ts[i], "+") then
      var right :- ParseMul(ts, i + 1);
      AddTail(ts, right.1, Bin(Add, acc, right.0))
    else if Matches(ts[i], "-") then
      var right :- ParseMul(ts, i + 1);
      AddTail(ts, right.1, Bin(Sub, acc, right.0))
    else Ok((acc, i))
  }

  function ParseMul(ts: seq<Token>, i: nat): (r: Parsed)
    requires ValidTokens(ts) && i < |ts|
    ensures r.Ok? ==> i < r.value.1 < |ts|
    decreases |ts| - i, 3
  {
    var left :- ParseUnary(ts, i);
    MulTail(ts, left.1, left.0)
  }

  function MulTail(ts: seq<Token>, i: nat, acc: Node): (r: Parsed)
    requires ValidTokens(ts) && i < |ts|
    ensures r.Ok? ==> i <= r.value.1 < |ts|
    decreases |ts| - i, 3
  {
    if Matches(ts[i], "*") then
      var right :- ParseUnary(ts, i + 1);
      MulTail(ts, right.1, Bin(Mul, acc, right.0))
    else if Matches(ts[i], "/") then
      var right :- ParseUnary(ts, i + 1);
      MulTail(ts, right.1, Bin(Div, acc, right.0))
    else Ok((acc, i))
  }

  /** `+x` is `x`; `-x` is `0 - x`. */
  function ParseUnary(ts: seq<Token>, i: nat): (r: Parsed)
    requires ValidTokens(ts) && i < |ts|
    ensures r.Ok? ==> i < r.value.1 < |ts|
    decreases |ts| - i, 2
  {
    if Matches(ts[i], "+") then ParsePrimary(ts, i + 1)
    else if Matches(ts[i], "-") then
      var right :- ParsePrimary(ts, i + 1);
      Ok((Bin(Sub, Num(0), right.0), right.1))
    else ParsePrimary(ts, i)
  }

  function ParsePrimary(ts: seq<Token>, i: nat): (r: Parsed)
    requires ValidTokens(ts) && i < |ts|
    ensures r.Ok? ==> i < r.value.1 < |ts|
    decreases |ts| - i, 1
  {
    if Matches(ts[i], "(") then
      var e :- ParseExpr(ts, i + 1);
      if Matches(ts[e.1], ")") then Ok((e.0, e.1 + 1)) else Err(ExpectMsg(")"))
    else if ts[i].kind == Number then Ok((Num(ts[i].val), i + 1))
    else Err(NotANumber)
  }

  /** A method's result and final cursor agree with a parse function's result. */
  predicate Agrees(r: Result<Node>, pos: nat, s: Parsed) {
    match s
    case Ok(v) => r == Ok(v.0) && pos == v.1
    case Err(m) => r == Err(m)
  }

  /** The parser state of the source: the token list and the global cursor. */
  class Parser {
    var toks: seq<Token>
    var pos: nat

    ghost predicate Valid()
      reads this
    {
      ValidTokens(toks) && pos < |toks|
    }

    constructor (ts: seq<Token>)
      requires ValidTokens(ts)
      ensures Valid() && toks == ts && pos == 0
    {
      toks := ts;
      pos := 0;
    }

    /** `consume`: advances over a matching symbol and says whether it did. */
    method Consume(op: string) returns (b: bool)
      requires Valid()
      modifies this
      ensures Valid() && toks == old(toks)
      ensures b == Matches(toks[old(pos)], op)
      ensures pos == if b then old(pos) + 1 else old(pos)
    {
      if toks[pos].kind != Reserved || !StartsWith(toks[pos].str, op) {
        return false;
      }
      pos := pos + 1;
      return true;
    }

    /** `expect`: like `consume`, but a mismatch is an error. */
    method Expect(op: string) returns (r: Result<()>)
      requires Valid()
      modifies this
      ensures Valid() && toks == old(toks)
      ensures r == if Matches(toks[old(pos)], op) then Ok(()) else Err(ExpectMsg(op))
      ensures pos == if r.Ok? then old(pos) + 1 else old(pos)
    {
      if toks[pos].kind != Reserved || !StartsWith(toks[pos].str, op) {
        return Err(ExpectMsg(op));
      }
      pos := pos + 1;
      return Ok(());
    }

    /** `expect_number`: the value of a number token, which is passed over. */
    method ExpectNumber() returns (r: Result<int>)
      requires Valid()
      modifies this
      ensures Valid() && toks == old(toks)
      ensures r == if toks[old(pos)].kind == Number then Ok(toks[old(pos)].val) else Err(NotANumber)
      ensures pos == if r.Ok? then old(pos) + 1 else old(pos)
    {
      if toks[pos].kind != Number {
        return Err(NotANumber);
      }
      var val := toks[pos].val;
      pos := pos + 1;
      return Ok(val);
    }

    method Expr() returns (r: Result<Node>)
      requires Valid()
      modifies this
      ensures Valid() && toks == old(toks)
      ensures Agrees(r, pos, ParseExpr(toks, old(pos)))
      decreases |toks| - pos, 7
    {
      r := Equality();
    }

    method Equality() returns (r: Result<Node>)
      requires Valid()
      modifies this
      ensures Valid() && toks == old(toks)
      ensures Agrees(r, pos, ParseEquality(toks, old(pos)))
      decreases |toks| - pos, 6
    {
      var left := Relational();
      if left.Err? { return Err(left.msg); }
      var ret := left.value;
      while true
        invariant Valid() && toks == old(toks) && old(pos) <= pos
        invariant ParseEquality(toks, old(pos)) == EqualityTail(toks, pos, ret)
        decreases |toks| - pos
      {
        var b := Consume("==");
        if b {
          var right := Relational();
          if right.Err? { return Err(right.msg); }
          ret := Bin(Eq, ret, right.value);
        } else {
          b := Consume("!=");
          if b {
            var right := Relational();
            if right.Err? { return Err(right.msg); }
            ret := Bin(Ne, ret, right.value);
          } else {
            return Ok(ret);
          }
        }
      }
    }

    method Relational() returns (r: Result<Node>)
      requires Valid()
      modifies this
      ensures Valid() && toks == old(toks)
      ensures Agrees(r, pos, ParseRelational(toks, old(pos)))
      decreases |toks| - pos, 5
    {
      var first := Add();
      if first.Err? { return Err(first.msg); }
      var ret := first.value;
      while true
        invariant Valid() && toks == old(toks) && old(pos) <= pos
        invariant ParseRelational(toks, old(pos)) == RelationalTail(toks, pos, ret)
        decreases |toks| - pos
      {
        var b := Consume(">=");
        if b {
          var left := Add();
          if left.Err? { return Err(left.msg); }
          ret := Bin(Ge, left.value, ret);
          continue;
        }
        b := Consume("<=");
        if b {
          var right := Add();
          if right.Err? { return Err(right.msg); }
          ret := Bin(Le, ret, right.value);
          continue;
        }
        b := Consume(">");
        if b {
          var left := Add();
          if left.Err? { return Err(left.msg); }
          ret := Bin(Gt, left.value, ret);
          continue;
        }
        b := Consume("<");
        if b {
          var right := Add();
          if right.Err? { return Err(right.msg); }
          ret := Bin(Lt, ret, right.value);
          continue;
        }
        return Ok(ret);
      }
    }

    method Add() returns (r: Result<Node>)
      requires Valid()
      modifies this
      ensures Valid() && toks == old(toks)
      ensures Agrees(r, pos, ParseAdd(toks, old(pos)))
      decreases |toks| - pos, 4
    {
      var left := Mul();
      if left.Err? { return Err(left.msg); }
      var ret := left.value;
      while true
        invariant Valid() && toks == old(toks) && old(pos) <= pos
        invariant ParseAdd(toks, old(pos)) == AddTail(toks, pos, ret)
        decreases |toks| - pos
      {
        var b := Consume("+");
        if b {
          var right := Mul();
          if right.Err? { return Err(right.msg); }
          ret := Bin(BinOp.Add, ret, right.value);
        } else {
          b := Consume("-");
          if b {
            var right := Mul();
            if right.Err? { return Err(right.msg); }
            ret := Bin(Sub, ret, right.value);
          } else {
            return Ok(ret);
          }
        }
      }
    }

    method Mul() returns (r: Result<Node>)
      requires Valid()
      modifies this
      ensures Valid() && toks == old(toks)
      ensures Agrees(r, pos, ParseMul(toks, old(pos)))
      decreases |toks| - pos, 3
    {
      var left := Unary();
      if left.Err? { return Err(left.msg); }
      var ret := left.value;
      while true
        invariant Valid() && toks == old(toks) && old(pos) <= pos
        invariant ParseMul(toks, old(pos)) == MulTail(toks, pos, ret)
        decreases |toks| - pos
      {
        var b := Consume("*");
        if b {
          var right := Unary();
          if right.Err? { return Err(right.msg); }
          ret := Bin(BinOp.Mul, ret, right.value);
        } else {
          b := Consume("/");
          if b {
            var right := Unary();
            if right.Err? { return Err(right.msg); }
            ret := Bin(Div, ret, right.value);
          } else {
            return Ok(ret);
          }
        }
      }
    }

    method Unary() returns (r: Result<Node>)
      requires Valid()
      modifies this
      ensures Valid() && toks == old(toks)
      ensures Agrees(r, pos, ParseUnary(toks, old(pos)))
      decreases |toks| - pos, 2
    {
      var b := Consume("+");
      if b {
        r := Primary();
        return;
      }
      b := Consume("-");
      if b {
        var right := Primary();
        if right.Err? { return Err(right.msg); }
        return Ok(Bin(Sub, Num(0), right.value));
      }
      r := Primary();
    }

    method Primary() returns (r: Result<Node>)
      requires Valid()
      modifies this
      ensures Valid() && toks == old(toks)
      ensures Agrees(r, pos, ParsePrimary(toks, old(pos)))
      decreases |toks| - pos, 1
    {
      var b := Consume("(");
      if b {
        var e := Expr();
        if e.Err? { return e; }
        var close := Expect(")");
        if close.Err? { return Err(close.msg); }
        return e;
      }
      var n := ExpectNumber();
      if n.Err? { return Err(n.msg); }
      return Ok(Num(n.value));
    }
  }
}
