/// Code generator of the statement-level compiler (codegen.c). `gen` prints
/// stack-machine code for a tree: every expression leaves its value on the
/// stack, control structures number their labels with a counter that lives
/// for the whole run, and `codegen` wraps the statements in `main`'s frame.
///
/// The printed text is a sequence of `Asm.Instr`; the functions below give
/// the code of each tree together with the next counter value, and the class
/// `CodeGen` holds the output and the counter and is proved to print exactly
/// that code.

module StmtGen {
  import opened Util
  import opened Asm
  import opened BinOps
  import opened StmtParse

  const NotLvalue := "not an lvalue"

  /** Code printed for a tree, and the counter value after it. */
  type Code = Result<(seq<Instr>, int)>

  /** `gen_lval` on a variable: push its address `rbp - offset`. */
  function LvalCode(offset: int): seq<Instr> {
    [MovRaxRbp, SubRaxImm(offset), Push(Rax)]
  }

  /** Pop a condition and jump to `target` when it is 0. */
  function TestCode(target: Label): seq<Instr> {
    [Pop(Rax), CmpRaxZero, Je(target)]
  }

  /** The inlined epilogue after `return`'s value is popped into `rax`. */
  const ReturnCode := [Pop(Rax), MovRspRbp, Pop(Rbp), Ret]

  /** Number of control structures in a tree: each takes one counter value. */
  function Controls(n: Node): nat
    decreases n
  {
    match n
    case Num(_) => 0
    case LVar(_) => 0
    case Assign(l, r) => Controls(l) + Controls(r)
    case Bin(_, l, r) => Controls(l) + Controls(r)
    case ReturnStmt(v) => Controls(v)
    case IfStmt(c, b, e) => 1 + Controls(c) + Controls(b) + ControlsOpt(e)
    case ForStmt(i, t, s, b) => 1 + ControlsOpt(i) + ControlsOpt(t) + ControlsOpt(s) + Controls(b)
    case WhileStmt(c, b) => 1 + Controls(c) + Controls(b)
    case Block(ss) => ControlsSeq(ss)
  }

  function ControlsOpt(o: Option<Node>): nat
    decreases o
  {
    if o.Some? then Controls(o.value) else 0
  }

  function ControlsSeq(ss: seq<Node>): nat
    decreases ss
  {
    if |ss| == 0 then 0 else Controls(ss[0]) + ControlsSeq(ss[1..])
  }

  /** `gen` on a tree with the counter at `c`. An `if`, `for` or `while`
      takes `c` for its own labels before its parts are generated; an
      assignment to anything but a variable is `gen_lval`'s error. The
      counter moves on by exactly the number of control structures. */
  function GenCode(n: Node, c: int): (r: Code)
    ensures r.Ok? ==> r.value.1 == c + Controls(n)
    decreases n, 1
  {
    match n
    case Num(v) => Ok(([PushImm(v)], c))
    case LVar(off) => Ok((LvalCode(off) + [Pop(Rax), LoadRax, Push(Rax)], c))
    case Assign(left, right) =>
      if !left.LVar? then Err(NotLvalue)
      else
        var g :- GenCode(right, c);
        Ok((LvalCode(left.offset) + g.0 + [Pop(Rdi), Pop(Rax), StoreRaxRdi, Push(Rdi)], g.1))
    case Bin(op, l, r) =>
      var a :- GenCode(l, c);
      var b :- GenCode(r, a.1);
      Ok((a.0 + b.0 + [Pop(Rdi), Pop(Rax)] + OpCode(op) + [Push(Rax)], b.1))
    case ReturnStmt(v) =>
      var a :- GenCode(v, c);
      Ok((a.0 + ReturnCode, a.1))
    case IfStmt(cond, body, els) => IfCode(cond, body, els, c)
    case ForStmt(init, test, step, body) => ForCode(init, test, step, body, c)
    case WhileStmt(cond, body) => WhileCode(cond, body, c)
    case Block(ss) => GenBlock(ss, c)
  }

  /** `if`: the condition, a jump to `.Lelse<c>` when it is 0, the body, a
      jump to `.Lend<c>`, then `.Lelse<c>:`, the `else` branch if any, and
      `.Lend<c>:`. */
  function IfCode(cond: Node, body: Node, els: Option<Node>, c: int): (r: Code)
    ensures r.Ok? ==> r.value.1 == c + Controls(IfStmt(cond, body, els))
    decreases IfStmt(cond, body, els), 0
  {
    var a :- GenCode(cond, c + 1);
    var b :- GenCode(body, a.1);
    var e :- GenOpt(els, b.1);
    Ok((a.0 + TestCode(LElse(c)) + b.0 + [Jmp(LEnd(c)), Def(LElse(c))] + e.0 + [Def(LEnd(c))], e.1))
  }

  /** `for`: the initialisation if any, `.Lbegin<c>:`, the condition and its
      exit test if there is a condition, the body, the step if any, a jump
      back to `.Lbegin<c>`, and `.Lend<c>:`. */
  function ForCode(init: Option<Node>, test: Option<Node>, step: Option<Node>, body: Node, c: int): (r: Code)
    ensures r.Ok? ==> r.value.1 == c + Controls(ForStmt(init, test, step, body))
    decreases ForStmt(init, test, step, body), 0
  {
    var i :- GenOpt(init, c + 1);
    var t :- GenTest(test, LEnd(c), i.1);
    var b :- GenCode(body, t.1);
    var s :- GenOpt(step, b.1);
    Ok((i.0 + [Def(LBegin(c))] + t.0 + b.0 + s.0 + [Jmp(LBegin(c)), Def(LEnd(c))], s.1))
  }

  /** `while`: `.Lbegin<c>:`, the condition and its exit test, the body, a
      jump back, and `.Lend<c>:`. */
  function WhileCode(cond: Node, body: Node, c: int): (r: Code)
    ensures r.Ok? ==> r.value.1 == c + Controls(WhileStmt(cond, body))
    decreases WhileStmt(cond, body), 0
  {
    var a :- GenCode(cond, c + 1);
    var b :- GenCode(body, a.1);
    Ok(([Def(LBegin(c))] + a.0 + TestCode(LEnd(c)) + b.0 + [Jmp(LBegin(c)), Def(LEnd(c))], b.1))
  }

  /** An optional part (`else`, `for` initialisation or step): nothing when
      it is absent. */
  function GenOpt(o: Option<Node>, c: int): (r: Code)
    ensures r.Ok? ==> r.value.1 == c + ControlsOpt(o)
    decreases o, 1
  {
    if o.None? then Ok(([], c)) else GenCode(o.value, c)
  }

  /** The optional condition of a `for`: its code and the exit test, or
      nothing at all. */
  function GenTest(o: Option<Node>, exit: Label, c: int): (r: Code)
    ensures r.Ok? ==> r.value.1 == c + ControlsOpt(o)
    decreases o, 1
  {
    if o.None? then Ok(([], c))
    else
      var a :- GenCode(o.value, c);
      Ok((a.0 + TestCode(exit), a.1))
  }

  /** The statements of a block in order, each but the last followed by
      `pop rax`. */
  function GenBlock(ss: seq<Node>, c: int): (r: Code)
    ensures r.Ok? ==> r.value.1 == c + ControlsSeq(ss)
    decreases ss, 1
  {
    if |ss| == 0 then Ok(([], c))
    else
      var h :- GenCode(ss[0], c);
      var t :- GenBlock(ss[1..], h.1);
      Ok((h.0 + (if |ss| > 1 then [Pop(Rax)] else []) + t.0, t.1))
  }

  /** `assign_lvar_offset`: the frame is the offset of the first local in the
      list, or 0 without locals. */
  function FrameSize(offsets: seq<int>): (r: int)
    ensures |offsets| == 0 ==> r == 0
    ensures |offsets| > 0 ==> r == offsets[0]
  {
    if |offsets| == 0 then 0 else offsets[0]
  }

  function Prologue(frame: int): seq<Instr> {
    [Push(Rbp), MovRbpRsp, SubRspImm(frame)]
  }

  const Epilogue := [MovRspRbp, Pop(Rbp), Ret]

  /** The top-level statements in order, each followed by `pop rax`. */
  function GenBody(prog: seq<Node>, c: int): (r: Code)
    ensures r.Ok? ==> r.value.1 == c + ControlsSeq(prog)
    decreases prog
  {
    if |prog| == 0 then Ok(([], c))
    else
      var h :- GenCode(prog[0], c);
      var t :- GenBody(prog[1..], h.1);
      Ok((h.0 + [Pop(Rax)] + t.0, t.1))
  }

  /** `codegen`: prologue with the frame, the statements, epilogue. */
  function GenProgram(prog: seq<Node>, offsets: seq<int>, c: int): (r: Code)
    ensures r.Ok? <==> GenBody(prog, c).Ok?
    ensures r.Ok? ==> r.value.1 == c + ControlsSeq(prog)
    ensures r.Ok? ==> |r.value.0| >= 6 && r.value.0[..3] == Prologue(FrameSize(offsets)) && r.value.0[|r.value.0| - 3..] == Epilogue
  {
    var b :- GenBody(prog, c);
    Ok((Prologue(FrameSize(offsets)) + b.0 + Epilogue, b.1))
  }

  /** The method printed `g`'s code after `out0` and left the counter after
      it, or failed with `g`'s error. */
  predicate Follows(r: Result<()>, g: Code, out0: seq<Instr>, out1: seq<Instr>, c1: int) {
    match g
    case Ok(x) => r.Ok? && out1 == out0 + x.0 && c1 == x.1
    case Err(m) => r == Err(m)
  }

  /** The printer: the output printed so far and `count`'s static counter. */
  class CodeGen {
    var out: seq<Instr>
    var counter: int

    /** The counter starts at 1 and nothing is printed yet. */
    constructor()
      ensures out == [] && counter == 1
    {
      out := [];
      counter := 1;
    }

    /** `printf` of some lines. */
    method Emit(code: seq<Instr>)
      modifies this
      ensures out == old(out) + code && counter == old(counter)
    {
      out := out + code;
    }

    /** `count`: the current counter value, and the counter moves on. */
    method Count() returns (c: int)
      modifies this
      ensures c == old(counter) && counter == old(counter) + 1 && out == old(out)
    {
      c := counter;
      counter := counter + 1;
    }

    /** `gen_lval`: a variable's address, anything else an error. */
    method GenLval(n: Node) returns (r: Result<()>)
      modifies this
      ensures n.LVar? ==> r.Ok? && out == old(out) + LvalCode(n.offset) && counter == old(counter)
      ensures !n.LVar? ==> r == Err(NotLvalue)
    {
      if !n.LVar? {
        return Err(NotLvalue);
      }
      Emit(LvalCode(n.offset));
      return Ok(());
    }

    /** `gen`. */
    method Gen(n: Node) returns (r: Result<()>)
      modifies this
      ensures Follows(r, GenCode(n, old(counter)), old(out), out, counter)
      decreases n, 2
    {
      match n
      case Num(v) =>
        Emit([PushImm(v)]);
        return Ok(());
      case LVar(_) =>
        r := GenLval(n);
        Emit([Pop(Rax), LoadRax, Push(Rax)]);
      case Assign(left, right) =>
        r := GenLval(left);
        if r.Err? { return; }
        r := Gen(right);
        if r.Err? { return; }
        Emit([Pop(Rdi), Pop(Rax), StoreRaxRdi, Push(Rdi)]);
      case ReturnStmt(v) =>
        r := Gen(v);
        if r.Err? { return; }
        Emit(ReturnCode);
      case IfStmt(cond, body, els) =>
        r := GenIf(cond, body, els);
      case ForStmt(init, test, step, body) =>
        r := GenFor(init, test, step, body);
      case WhileStmt(cond, body) =>
        r := GenWhile(cond, body);
      case Block(ss) =>
        r := GenStmts(ss);
      case Bin(op, left, right) =>
        r := Gen(left);
        if r.Err? { return; }
        r := Gen(right);
        if r.Err? { return; }
        Emit([Pop(Rdi), Pop(Rax)] + OpCode(op) + [Push(Rax)]);
    }

    /** The `ND_IF` case of `gen`. */
    method GenIf(cond: Node, body: Node, els: Option<Node>) returns (r: Result<()>)
      modifies this
      ensures Follows(r, IfCode(cond, body, els, old(counter)), old(out), out, counter)
      decreases IfStmt(cond, body, els), 0
    {
      ghost var o := out;
      var c := Count();
      r := Gen(cond);
      if r.Err? { return; }
      ghost var a := GenCode(cond, c + 1).value;
      ghost var acc := a.0;
      Emit(TestCode(LElse(c)));
      acc := Grow(o, acc, TestCode(LElse(c)));
      r := Gen(body);
      if r.Err? { return; }
      ghost var b := GenCode(body, a.1).value;
      acc := Grow(o, acc, b.0);
      Emit([Jmp(LEnd(c)), Def(LElse(c))]);
      acc := Grow(o, acc, [Jmp(LEnd(c)), Def(LElse(c))]);
      r := GenOptional(els);
      if r.Err? { return; }
      ghost var e := GenOpt(els, b.1).value;
      acc := Grow(o, acc, e.0);
      Emit([Def(LEnd(c))]);
      acc := Grow(o, acc, [Def(LEnd(c))]);
    }

    /** The `ND_FOR` case of `gen`. */
    method GenFor(init: Option<Node>, test: Option<Node>, step: Option<Node>, body: Node) returns (r: Result<()>)
      modifies this
      ensures Follows(r, ForCode(init, test, step, body, old(counter)), old(out), out, counter)
      decreases ForStmt(init, test, step, body), 0
    {
      ghost var o := out;
      var c := Count();
      r := GenOptional(init);
      if r.Err? { return; }
      ghost var i := GenOpt(init, c + 1).value;
      ghost var acc := i.0;
      Emit([Def(LBegin(c))]);
      acc := Grow(o, acc, [Def(LBegin(c))]);
      r := GenForTest(test, LEnd(c));
      if r.Err? { return; }
      ghost var t := GenTest(test, LEnd(c), i.1).value;
      acc := Grow(o, acc, t.0);
      r := Gen(body);
      if r.Err? { return; }
      ghost var b := GenCode(body, t.1).value;
      acc := Grow(o, acc, b.0);
      r := GenOptional(step);
      if r.Err? { return; }
      ghost var s := GenOpt(step, b.1).value;
      acc := Grow(o, acc, s.0);
      Emit([Jmp(LBegin(c)), Def(LEnd(c))]);
      acc := Grow(o, acc, [Jmp(LBegin(c)), Def(LEnd(c))]);
    }

    /** `if (node->x != NULL) gen(node->x)`. */
    method GenOptional(o: Option<Node>) returns (r: Result<()>)
      modifies this
      ensures Follows(r, GenOpt(o, old(counter)), old(out), out, counter)
      decreases o, 0
    {
      if o.None? { return Ok(()); }
      r := Gen(o.value);
    }

    /** The condition of a `for` and its exit test, when there is one. */
    method GenForTest(test: Option<Node>, exit: Label) returns (r: Result<()>)
      modifies this
      ensures Follows(r, GenTest(test, exit, old(counter)), old(out), out, counter)
      decreases test, 0
    {
      if test.None? { return Ok(()); }
      ghost var o := out;
      r := Gen(test.value);
      if r.Err? { return; }
      ghost var acc := GenCode(test.value, old(counter)).value.0;
      Emit(TestCode(exit));
      acc := Grow(o, acc, TestCode(exit));
    }

    /** The `ND_WHILE` case of `gen`. */
    method GenWhile(cond: Node, body: Node) returns (r: Result<()>)
      modifies this
      ensures Follows(r, WhileCode(cond, body, old(counter)), old(out), out, counter)
      decreases WhileStmt(cond, body), 0
    {
      ghost var o := out;
      var c := Count();
      Emit([Def(LBegin(c))]);
      ghost var acc := [Def(LBegin(c))];
      r := Gen(cond);
      if r.Err? { return; }
      ghost var a := GenCode(cond, c + 1).value;
      acc := Grow(o, acc, a.0);
      Emit(TestCode(LEnd(c)));
      acc := Grow(o, acc, TestCode(LEnd(c)));
      r := Gen(body);
      if r.Err? { return; }
      ghost var b := GenCode(body, a.1).value;
      acc := Grow(o, acc, b.0);
      Emit([Jmp(LBegin(c)), Def(LEnd(c))]);
      acc := Grow(o, acc, [Jmp(LBegin(c)), Def(LEnd(c))]);
    }

    /** The `ND_BLOCK` loop of `gen` over the statements of a block. */
    method GenStmts(ss: seq<Node>) returns (r: Result<()>)
      modifies this
      ensures Follows(r, GenBlock(ss, old(counter)), old(out), out, counter)
      decreases ss, 1
    {
      var i := 0;
      r := Ok(());
      assert ss[0..] == ss && out[|old(out)|..] == [];
      ThenEmpty(GenBlock(ss, counter));
      while i < |ss|
        invariant 0 <= i <= |ss| && r.Ok?
        invariant |old(out)| <= |out| && out[..|old(out)|] == old(out)
        invariant GenBlock(ss, old(counter)) == Then(out[|old(out)|..], GenBlock(ss[i..], counter))
        decreases |ss| - i
      {
        ghost var done, c := out[|old(out)|..], counter;
        BlockStep(ss, i, c);
        r := Gen(ss[i]);
        if r.Err? { return; }
        var pop := if i + 1 < |ss| then [Pop(Rax)] else [];
        Emit(pop);
        ThenStep(done, GenCode(ss[i], c).value.0 + pop, GenBlock(ss[i + 1..], counter));
        assert out[|old(out)|..] == done + (GenCode(ss[i], c).value.0 + pop);
        i := i + 1;
      }
      assert ss[i..] == [];
      assert out == old(out) + out[|old(out)|..];
    }

    /** `codegen` on the statements and the offsets of the locals. */
    method Codegen(prog: seq<Node>, offsets: seq<int>) returns (r: Result<()>)
      modifies this
      ensures Follows(r, GenProgram(prog, offsets, old(counter)), old(out), out, counter)
    {
      ghost var o := out;
      Emit(Prologue(FrameSize(offsets)));
      ghost var acc := Prologue(FrameSize(offsets));
      r := GenTopLevel(prog);
      if r.Err? { return; }
      acc := Grow(o, acc, GenBody(prog, old(counter)).value.0);
      Emit(Epilogue);
      acc := Grow(o, acc, Epilogue);
    }

    /** The loop of `codegen` over the top-level statements. */
    method GenTopLevel(prog: seq<Node>) returns (r: Result<()>)
      modifies this
      ensures Follows(r, GenBody(prog, old(counter)), old(out), out, counter)
    {
      var i := 0;
      r := Ok(());
      assert prog[0..] == prog && out[|old(out)|..] == [];
      ThenEmpty(GenBody(prog, counter));
      while i < |prog|
        invariant 0 <= i <= |prog| && r.Ok?
        invariant |old(out)| <= |out| && out[..|old(out)|] == old(out)
        invariant GenBody(prog, old(counter)) == Then(out[|old(out)|..], GenBody(prog[i..], counter))
        decreases |prog| - i
      {
        ghost var done, c := out[|old(out)|..], counter;
        BodyStep(prog, i, c);
        r := Gen(prog[i]);
        if r.Err? { return; }
        Emit([Pop(Rax)]);
        ThenStep(done, GenCode(prog[i], c).value.0 + [Pop(Rax)], GenBody(prog[i + 1..], counter));
        assert out[|old(out)|..] == done + (GenCode(prog[i], c).value.0 + [Pop(Rax)]);
        i := i + 1;
      }
      assert prog[i..] == [];
      assert out == old(out) + out[|old(out)|..];
    }
  }

  /** Code printed so far followed by the code of the rest. */
  function Then(done: seq<Instr>, g: Code): Code {
    if g.Ok? then Ok((done + g.value.0, g.value.1)) else g
  }

  /** Printing `p` after `o + acc` leaves `o + (acc + p)`. */
  lemma Grow(o: seq<Instr>, acc: seq<Instr>, p: seq<Instr>) returns (acc': seq<Instr>)
    ensures acc' == acc + p && (o + acc) + p == o + acc'
  {
    acc' := acc + p;
  }

  lemma ThenEmpty(g: Code)
    ensures Then([], g) == g
  {
    if g.Ok? { assert [] + g.value.0 == g.value.0; }
  }

  lemma ThenStep(done: seq<Instr>, step: seq<Instr>, g: Code)
    ensures Then(done, Then(step, g)) == Then(done + step, g)
  {
    if g.Ok? { assert done + (step + g.value.0) == (done + step) + g.value.0; }
  }

  /** The block from statement `i` on: statement `i`, then `pop rax` unless
      it is the last, then the block from `i + 1`. */
  lemma BlockStep(ss: seq<Node>, i: nat, c: int)
    requires i < |ss|
    ensures GenBlock(ss[i..], c) ==
      match GenCode(ss[i], c)
      case Err(m) => Err(m)
      case Ok(h) => Then(h.0 + (if i + 1 < |ss| then [Pop(Rax)] else []), GenBlock(ss[i + 1..], h.1))
  {
    assert ss[i..][0] == ss[i] && ss[i..][1..] == ss[i + 1..];
    var g := GenCode(ss[i], c);
    if g.Ok? {
      var t := GenBlock(ss[i + 1..], g.value.1);
      var pop := if i + 1 < |ss| then [Pop(Rax)] else [];
      if t.Ok? { assert g.value.0 + pop + t.value.0 == (g.value.0 + pop) + t.value.0; }
    }
  }

  /** The statements from `i` on: statement `i`, `pop rax`, the rest. */
  lemma BodyStep(prog: seq<Node>, i: nat, c: int)
    requires i < |prog|
    ensures GenBody(prog[i..], c) ==
      match GenCode(prog[i], c)
      case Err(m) => Err(m)
      case Ok(h) => Then(h.0 + [Pop(Rax)], GenBody(prog[i + 1..], h.1))
  {
    assert prog[i..][0] == prog[i] && prog[i..][1..] == prog[i + 1..];
  }
}
