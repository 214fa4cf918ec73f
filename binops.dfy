/// The binary operators both expression code generators share (tinycc.c and
/// codegen.c print the same instructions for them), with the value C gives
/// each and the proof that the printed instructions compute that value.

module BinOps {
  import opened Util
  import opened Asm

  datatype BinOp = Add | Sub | Mul | Div | Eq | Ne | Gt | Ge | Lt | Le

  /** The instructions printed after both operands are popped, per operator.
      `>`/`>=` share `setl`/`setle` with `<`/`<=`: the parser has already put
      their operands the other way round. */
  function OpCode(op: BinOp): seq<Instr> {
    match op
    case Add => [AddRaxRdi]
    case Sub => [SubRaxRdi]
    case Mul => [ImulRaxRdi]
    case Div => [Cqo, IdivRdi]
    case Eq => [CmpRaxRdi, Set(E), MovzbRaxAl]
    case Ne => [CmpRaxRdi, Set(NE), MovzbRaxAl]
    case Ge => [CmpRaxRdi, Set(LE), MovzbRaxAl]
    case Le => [CmpRaxRdi, Set(LE), MovzbRaxAl]
    case Gt => [CmpRaxRdi, Set(L), MovzbRaxAl]
    case Lt => [CmpRaxRdi, Set(L), MovzbRaxAl]
  }

  /** The value of an operator node from the values of its left and right
      children, as C computes it on the node's own operand order; `None` is a
      division by zero. */
  function Apply(op: BinOp, a: int, b: int): Option<int> {
    match op
    case Add => Some(a + b)
    case Sub => Some(a - b)
    case Mul => Some(a * b)
    case Div => if b == 0 then None else Some(TruncDiv(a, b))
    case Eq => Some(Bit(a == b))
    case Ne => Some(Bit(a != b))
    case Ge => Some(Bit(a <= b))
    case Le => Some(Bit(a <= b))
    case Gt => Some(Bit(a < b))
    case Lt => Some(Bit(a < b))
  }

  /** The operator instructions turn the two popped operands into the value
      `Apply` gives, or fault exactly when `Apply` has none; the stack and
      memory are left alone. */
  lemma OpCodeCorrect(op: BinOp, s: State)
    ensures Run(OpCode(op), s).Some? <==> Apply(op, s.rax, s.rdi).Some?
    ensures Run(OpCode(op), s).Some? ==>
      var t := Run(OpCode(op), s).value;
      t.rax == Apply(op, s.rax, s.rdi).value && t.stack == s.stack && t.mem == s.mem && t.rbp == s.rbp
  {
    match op
    case Add => RunOne(AddRaxRdi, s);
    case Sub => RunOne(SubRaxRdi, s);
    case Mul => RunOne(ImulRaxRdi, s);
    case Div =>
      assert [Cqo, IdivRdi][1..] == [IdivRdi];
      RunOne(IdivRdi, s);
    case Eq => CompareCorrect(E, s);
    case Ne => CompareCorrect(NE, s);
    case Ge => CompareCorrect(LE, s);
    case Le => CompareCorrect(LE, s);
    case Gt => CompareCorrect(L, s);
    case Lt => CompareCorrect(L, s);
  }

  /** `cmp`, a `set` and `movzb` load the flag the `set` computes into `rax`. */
  lemma CompareCorrect(cc: Cond, s: State)
    ensures var t := Run([CmpRaxRdi, Set(cc), MovzbRaxAl], s);
      t.Some? && t.value.stack == s.stack && t.value.mem == s.mem && t.value.rbp == s.rbp &&
      t.value.rax == Bit(Holds(cc, s.rax, s.rdi))
  {
    var c := [CmpRaxRdi, Set(cc), MovzbRaxAl];
    var s1 := s.(cmpL := s.rax, cmpR := s.rdi);
    var s2 := s1.(al := Bit(Holds(cc, s.rax, s.rdi)));
    var s3 := s2.(rax := s2.al);
    assert Run(c, s) == Run(c[1..], s1);
    assert Run(c[1..], s1) == Run(c[2..], s2);
    assert Run(c[2..], s2) == Run(c[3..], s3);
    assert c[3..] == [];
  }

  /** A one-instruction fragment runs that instruction. */
  lemma RunOne(i: Instr, s: State)
    ensures Run([i], s) == Exec(i, s)
  {
    assert [i][1..] == [];
  }

  /** The pops, the operator and the final push replace the two operand values
      on top of the stack by the node's value. */
  lemma TailCorrect(op: BinOp, s: State, base: seq<int>, a: int, b: int)
    requires s.stack == base + [a] + [b]
    ensures var t := Run([Pop(Rdi), Pop(Rax)] + OpCode(op) + [Push(Rax)], s);
      (t.Some? <==> Apply(op, a, b).Some?) &&
      (t.Some? ==> t.value.stack == base + [Apply(op, a, b).value] && t.value.mem == s.mem && t.value.rbp == s.rbp)
  {
    var pops := [Pop(Rdi), Pop(Rax)];
    RunAppend(pops + OpCode(op), [Push(Rax)], s);
    RunAppend(pops, OpCode(op), s);
    assert (base + [a] + [b])[..|base| + 1] == base + [a];
    assert (base + [a])[..|base|] == base;
    var u := Run(pops, s).value;
    assert u.rax == a && u.rdi == b && u.stack == base && u.mem == s.mem && u.rbp == s.rbp;
    OpCodeCorrect(op, u);
  }
}
