/// Code generator of the calculator compiler (tinycc.c): `gen` walks the tree
/// and prints stack-machine code, each subtree leaving its value on the stack,
/// and `main` pops the value of the whole expression into `rax`.

module CalcGen {
  import opened Util
  import opened Asm
  import opened BinOps
  import opened CalcParse
  import opened CalcParseProps

  /** `gen`: a number is pushed; an operator node runs its left and right
      subtrees, pops the right value into `rdi` and the left into `rax`,
      combines them and pushes `rax`. */
  function Gen(n: Node): (r: seq<Instr>)
    ensures |r| > 0 && (r[|r| - 1].PushImm? || r[|r| - 1] == Push(Rax))
  {
    match n
    case Num(v) => [PushImm(v)]
    case Bin(op, l, r) => Gen(l) + Gen(r) + [Pop(Rdi), Pop(Rax)] + OpCode(op) + [Push(Rax)]
  }

  /** Reference meaning of a tree, independent of any machine. */
  function Eval(n: Node): (r: Option<int>)
    ensures r.None? ==>
      n.Bin? && (Eval(n.left).None? || Eval(n.right).None? || (n.op == Div && Eval(n.right) == Some(0)))
  {
    match n
    case Num(v) => Some(v)
    case Bin(op, l, r) =>
      match Eval(l)
      case None => None
      case Some(a) =>
        match Eval(r)
        case None => None
        case Some(b) => Apply(op, a, b)
  }

  /** `gen` is correct: the code of a tree runs to completion exactly when
      the tree has a value, and then it has pushed exactly that one value on
      top of the stack it started with, leaving memory alone. */
  lemma {:induction false} GenCorrect(n: Node, s: State)
    ensures Run(Gen(n), s).Some? <==> Eval(n).Some?
    ensures Run(Gen(n), s).Some? ==>
      Run(Gen(n), s).value.stack == s.stack + [Eval(n).value] &&
      Run(Gen(n), s).value.mem == s.mem
  {
    match n
    case Num(v) =>
    case Bin(op, l, r) =>
      var tail := [Pop(Rdi), Pop(Rax)] + OpCode(op) + [Push(Rax)];
      assert Gen(n) == Gen(l) + (Gen(r) + tail);
      RunAppend(Gen(l), Gen(r) + tail, s);
      GenCorrect(l, s);
      if Eval(l).Some? {
        var s1 := Run(Gen(l), s).value;
        var a := Eval(l).value;
        RunAppend(Gen(r), tail, s1);
        GenCorrect(r, s1);
        if Eval(r).Some? {
          var s2 := Run(Gen(r), s1).value;
          var b := Eval(r).value;
          assert s2.stack == s.stack + [a] + [b];
          TailCorrect(op, s2, s.stack, a, b);
        }
      }
  }

  /** What `main` prints between its prologue and `ret`: the tree's code, then
      `pop rax`. */
  function Compile(n: Node): seq<Instr> {
    Gen(n) + [Pop(Rax)]
  }

  /** Run on an empty stack, the program returns the value of the expression
      in `rax` and leaves the stack empty. */
  lemma CompileReturnsValue(n: Node, s: State)
    requires s.stack == []
    ensures Run(Compile(n), s).Some? <==> Eval(n).Some?
    ensures Run(Compile(n), s).Some? ==>
      Run(Compile(n), s).value.rax == Eval(n).value && Run(Compile(n), s).value.stack == []
  {
    RunAppend(Gen(n), [Pop(Rax)], s);
    GenCorrect(n, s);
  }

  /** C's meaning of a comparison as written in the source, left operand first. */
  predicate SourceCompare(op: BinOp, x: int, y: int)
    requires op == Gt || op == Ge || op == Lt || op == Le
  {
    match op
    case Gt => x > y
    case Ge => x >= y
    case Lt => x < y
    case Le => x <= y
  }

  /** The operand swap of the parser and the `setl`/`setle` of `gen` together
      give each of the four comparisons its C meaning: `a o b` evaluates to 1
      exactly when `o` holds between the values of `a` and `b`, and to 0
      otherwise. */
  lemma ComparisonMeaning(op: BinOp, a: Node, b: Node)
    requires op == Gt || op == Ge || op == Lt || op == Le
    requires Eval(a).Some? && Eval(b).Some?
    ensures var r := ParseExpr(Relation(op, a, b), 0);
      r.Ok? && Eval(r.value.0) == Some(Bit(SourceCompare(op, Eval(a).value, Eval(b).value)))
  {
    RelationOperands(op, a, b);
  }
}
