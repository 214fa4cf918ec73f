/// The target of both code generators: the x86-64 instruction lines they print,
/// as abstract instructions, and a machine that runs straight-line code.
/// The machine keeps an abstract evaluation stack (`push`/`pop`) apart from the
/// memory that holds local variables; `rsp` itself, 64-bit wrap-around and the
/// `rdx` half of `cqo`/`idiv` are not modelled.

module Asm {
  import opened Util

  /** Labels of control structures: `.Lelse<c>`, `.Lend<c>`, `.Lbegin<c>`. */
  datatype Label = LElse(n: int) | LEnd(n: int) | LBegin(n: int)

  datatype Reg = Rax | Rdi | Rbp

  /** Condition codes of the `set` instructions, read after a signed `cmp`. */
  datatype Cond = E | NE | LE | L

  function Holds(c: Cond, l: int, r: int): bool {
    match c
    case E => l == r
    case NE => l != r
    case LE => l <= r
    case L => l < r
  }

  function Bit(b: bool): int { if b then 1 else 0 }

  /** One printed line of assembly. */
  datatype Instr =
    | PushImm(n: int)        // push <n>
    | Push(r: Reg)           // push <r>
    | Pop(r: Reg)            // pop <r>
    | AddRaxRdi              // add rax, rdi
    | SubRaxRdi              // sub rax, rdi
    | ImulRaxRdi             // imul rax, rdi
    | Cqo                    // cqo
    | IdivRdi                // idiv rdi
    | CmpRaxRdi              // cmp rax, rdi
    | Set(cc: Cond)          // sete / setne / setle / setl al
    | MovzbRaxAl             // movzb rax, al
    | MovRaxRbp              // mov rax, rbp
    | SubRaxImm(n: int)      // sub rax, <n>
    | LoadRax                // mov rax, [rax]
    | StoreRaxRdi            // mov [rax], rdi
    | CmpRaxZero             // cmp rax, 0
    | Je(target: Label)      // je <label>
    | Jmp(target: Label)     // jmp <label>
    | Def(lbl: Label)      // <label>:
    | MovRbpRsp              // mov rbp, rsp
    | MovRspRbp              // mov rsp, rbp
    | SubRspImm(n: int)      // sub rsp, <n>
    | Ret                    // ret

  /** Registers, the operands of the last `cmp`, the evaluation stack (top at
      the end) and memory. */
  datatype State = State(rax: int, rdi: int, rbp: int, al: int,
                         cmpL: int, cmpR: int, stack: seq<int>, mem: map<int, int>)

  function Get(s: State, r: Reg): int {
    match r
    case Rax => s.rax
    case Rdi => s.rdi
    case Rbp => s.rbp
  }

  function SetReg(s: State, r: Reg, v: int): (t: State)
    ensures Get(t, r) == v && t.stack == s.stack && t.mem == s.mem
    ensures forall q :: q != r ==> Get(t, q) == Get(s, q)
    ensures r != Rbp ==> t.rbp == s.rbp
    ensures t.al == s.al && t.cmpL == s.cmpL && t.cmpR == s.cmpR
  {
    match r
    case Rax => s.(rax := v)
    case Rdi => s.(rdi := v)
    case Rbp => s.(rbp := v)
  }

  /** A memory word; a slot never written reads as 0. */
  function Read(mem: map<int, int>, a: int): int {
    if a in mem then mem[a] else 0
  }

  /** `idiv`: signed division truncating toward zero, as C's `/`. */
  function TruncDiv(a: int, b: int): (q: int)
    requires b != 0
    ensures Abs(q) == Abs(a) / Abs(b)
    ensures q > 0 ==> (a < 0) == (b < 0)
    ensures q < 0 ==> (a < 0) != (b < 0)
  {
    var x, y := Abs(a), Abs(b);
    DivNat(x, y);
    var m := x / y;
    if (a < 0) == (b < 0) then m else -m
  }

  /** The quotient of two naturals is a natural. */
  lemma DivNat(x: nat, y: nat)
    requires y > 0
    ensures x / y >= 0
  {
  }

  function Abs(a: int): nat { if a < 0 then -a else a }

  /** The quotient `idiv` leaves satisfies C's division identity: the remainder
      is smaller than the divisor and never has the opposite sign of the
      dividend, so the quotient is rounded toward zero. */
  lemma TruncDivIdentity(a: int, b: int)
    requires b != 0
    ensures var r := a - b * TruncDiv(a, b);
            Abs(r) < Abs(b) && (r == 0 || (r < 0 <==> a < 0))
  {
    var ab: int, aa: int := Abs(b), Abs(a);
    var q, m := aa / ab, aa % ab;
    assert aa == ab * q + m && 0 <= m < ab;
    var t := TruncDiv(a, b);
    if a >= 0 && b > 0 {
      assert t == q && a == aa && b == ab;
    } else if a >= 0 {
      assert t == -q && a == aa && b == -ab;
      assert b * t == ab * q by { MulNegNeg(ab, q); }
    } else if b < 0 {
      assert t == q && a == -aa && b == -ab;
      assert b * t == -(ab * q);
    } else {
      assert t == -q && a == -aa && b == ab;
      assert b * t == -(ab * q);
    }
  }

  lemma MulNegNeg(x: int, y: int)
    ensures (-x) * (-y) == x * y
  {
  }

  /** One instruction of a straight-line fragment. `None` is a fault (an
      empty-stack pop, a division by zero) or an instruction that leaves the
      fragment (a jump, the frame set-up and tear-down, `ret`). */
  function Exec(i: Instr, s: State): Option<State> {
    match i
    case PushImm(n) => Some(s.(stack := s.stack + [n]))
    case Push(r) => Some(s.(stack := s.stack + [Get(s, r)]))
    case Pop(r) =>
      if |s.stack| == 0 then None
      else Some(SetReg(s.(stack := s.stack[..|s.stack| - 1]), r, s.stack[|s.stack| - 1]))
    case AddRaxRdi => Some(s.(rax := s.rax + s.rdi))
    case SubRaxRdi => Some(s.(rax := s.rax - s.rdi))
    case ImulRaxRdi => Some(s.(rax := s.rax * s.rdi))
    case Cqo => Some(s)
    case IdivRdi => if s.rdi == 0 then None else Some(s.(rax := TruncDiv(s.rax, s.rdi)))
    case CmpRaxRdi => Some(s.(cmpL := s.rax, cmpR := s.rdi))
    case Set(c) => Some(s.(al := Bit(Holds(c, s.cmpL, s.cmpR))))
    case MovzbRaxAl => Some(s.(rax := s.al))
    case MovRaxRbp => Some(s.(rax := s.rbp))
    case SubRaxImm(n) => Some(s.(rax := s.rax - n))
    case LoadRax => Some(s.(rax := Read(s.mem, s.rax)))
    case StoreRaxRdi => Some(s.(mem := s.mem[s.rax := s.rdi]))
    case CmpRaxZero => Some(s.(cmpL := s.rax, cmpR := 0))
    case Def(_) => Some(s)
    case _ => None
  }

  /** Runs a straight-line fragment from start to end. */
  function Run(code: seq<Instr>, s: State): Option<State>
    decreases |code|
  {
    if |code| == 0 then Some(s)
    else match Exec(code[0], s)
      case None => None
      case Some(t) => Run(code[1..], t)
  }

  /** Running two fragments one after the other is running their concatenation. */
  lemma {:induction false} RunAppend(a: seq<Instr>, b: seq<Instr>, s: State)
    ensures Run(a + b, s) == match Run(a, s) case None => None case Some(t) => Run(b, t)
    decreases |a|
  {
    if |a| == 0 {
      assert a + b == b;
    } else {
      assert (a + b)[0] == a[0] && (a + b)[1..] == a[1..] + b;
      match Exec(a[0], s)
      case None =>
      case Some(t) => RunAppend(a[1..], b, t);
    }
  }
}
