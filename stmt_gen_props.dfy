/// What the statement-level code generator promises: the labels of distinct
/// control structures never collide and every jump has its label, the code
/// of an expression leaves exactly its value on the stack, a block's value is
/// its last statement's, and the shapes of `if` without `else` and of `for`
/// without a condition.

module StmtGenProps {
  import opened Util
  import opened Asm
  import opened BinOps
  import opened StmtParse
  import opened StmtGen
  import opened StmtParseProps
  import opened StmtLex

  // ---------------------------------------------------------------------
  // Labels

  /** How many times a fragment defines label `l`. */
  function Defs(code: seq<Instr>, l: Label): nat
    decreases |code|
  {
    if |code| == 0 then 0
    else (if code[0] == Def(l) then 1 else 0) + Defs(code[1..], l)
  }

  /** How many jumps of a fragment go to label `l`. */
  function Jumps(code: seq<Instr>, l: Label): nat
    decreases |code|
  {
    if |code| == 0 then 0
    else (if code[0] == Je(l) || code[0] == Jmp(l) then 1 else 0) + Jumps(code[1..], l)
  }

  /** Label `l` is defined at most once, only when numbered in `[lo, hi)`,
      and is defined when something jumps to it. */
  ghost predicate SoundAt(code: seq<Instr>, l: Label, lo: int, hi: int) {
    && Defs(code, l) <= 1
    && (Defs(code, l) == 1 ==> lo <= l.n < hi)
    && (Jumps(code, l) > 0 ==> Defs(code, l) == 1)
  }

  /** Every label defined once at most, numbered in `[lo, hi)`, and every
      jump landing on a label the fragment itself defines. */
  ghost predicate LabelsOk(code: seq<Instr>, lo: int, hi: int) {
    forall l :: SoundAt(code, l, lo, hi)
  }

  lemma {:induction false} CountAppend(a: seq<Instr>, b: seq<Instr>, l: Label)
    ensures Defs(a + b, l) == Defs(a, l) + Defs(b, l)
    ensures Jumps(a + b, l) == Jumps(a, l) + Jumps(b, l)
    decreases |a|
  {
    if |a| == 0 {
      assert a + b == b;
    } else {
      assert (a + b)[0] == a[0] && (a + b)[1..] == a[1..] + b;
      CountAppend(a[1..], b, l);
    }
  }

  /** A fragment without definitions or jumps has no labels. */
  lemma {:induction false} NoLabels(code: seq<Instr>, l: Label)
    requires forall i :: 0 <= i < |code| ==> !code[i].Def? && !code[i].Je? && !code[i].Jmp?
    ensures Defs(code, l) == 0 && Jumps(code, l) == 0
    decreases |code|
  {
    if |code| > 0 {
      NoLabels(code[1..], l);
    }
  }

  lemma NoLabelsOk(code: seq<Instr>, lo: int, hi: int)
    requires forall i :: 0 <= i < |code| ==> !code[i].Def? && !code[i].Je? && !code[i].Jmp?
    ensures LabelsOk(code, lo, hi)
  {
    forall l ensures SoundAt(code, l, lo, hi) {
      NoLabels(code, l);
    }
  }

  lemma OneCount(i: Instr, l: Label)
    ensures Defs([i], l) == (if i == Def(l) then 1 else 0)
    ensures Jumps([i], l) == (if i == Je(l) || i == Jmp(l) then 1 else 0)
  {
    assert [i][1..] == [];
  }

  lemma TestCount(t: Label, l: Label)
    ensures Defs(TestCode(t), l) == 0
    ensures Jumps(TestCode(t), l) == (if t == l then 1 else 0)
  {
    assert TestCode(t) == [Pop(Rax), CmpRaxZero] + [Je(t)];
    CountAppend([Pop(Rax), CmpRaxZero], [Je(t)], l);
    NoLabels([Pop(Rax), CmpRaxZero], l);
    OneCount(Je(t), l);
  }

  lemma PairCount(j: Label, d: Label, l: Label)
    ensures Defs([Jmp(j), Def(d)], l) == (if d == l then 1 else 0)
    ensures Jumps([Jmp(j), Def(d)], l) == (if j == l then 1 else 0)
  {
    assert [Jmp(j), Def(d)] == [Jmp(j)] + [Def(d)];
    CountAppend([Jmp(j)], [Def(d)], l);
    OneCount(Jmp(j), l);
    OneCount(Def(d), l);
  }

  /** An `if` at one label: its parts' counts plus its own `.Lelse<c>` and
      `.Lend<c>`, each defined once and jumped to once. */
  lemma IfAt(a: seq<Instr>, b: seq<Instr>, e: seq<Instr>, l: Label, c: int, m1: int, m2: int, hi: int)
    requires SoundAt(a, l, c + 1, m1) && SoundAt(b, l, m1, m2) && SoundAt(e, l, m2, hi) && c < m1 <= m2 <= hi
    ensures SoundAt(a + TestCode(LElse(c)) + b + [Jmp(LEnd(c)), Def(LElse(c))] + e + [Def(LEnd(c))], l, c, hi)
  {
    var jd := [Jmp(LEnd(c)), Def(LElse(c))];
    var p1 := a + TestCode(LElse(c));
    var p2 := p1 + b;
    var p3 := p2 + jd;
    var p4 := p3 + e;
    CountAppend(p4, [Def(LEnd(c))], l);
    CountAppend(p3, e, l);
    CountAppend(p2, jd, l);
    CountAppend(p1, b, l);
    CountAppend(a, TestCode(LElse(c)), l);
    TestCount(LElse(c), l);
    PairCount(LEnd(c), LElse(c), l);
    OneCount(Def(LEnd(c)), l);
    var w := p4 + [Def(LEnd(c))];
    var own := (if l == LElse(c) then 1 else 0) + (if l == LEnd(c) then 1 else 0);
    assert Defs(w, l) == Defs(a, l) + Defs(b, l) + Defs(e, l) + own;
    assert Jumps(w, l) == Jumps(a, l) + Jumps(b, l) + Jumps(e, l) + own;
    if l.n == c {
      assert Defs(a, l) == 0 && Defs(b, l) == 0 && Defs(e, l) == 0;
    } else {
      assert own == 0;
    }
  }

  /** A `while` at one label: its parts' counts plus its own `.Lbegin<c>`
      and `.Lend<c>`. */
  lemma WhileAt(a: seq<Instr>, b: seq<Instr>, l: Label, c: int, m1: int, hi: int)
    requires SoundAt(a, l, c + 1, m1) && SoundAt(b, l, m1, hi) && c < m1 <= hi
    ensures SoundAt([Def(LBegin(c))] + a + TestCode(LEnd(c)) + b + [Jmp(LBegin(c)), Def(LEnd(c))], l, c, hi)
  {
    var jd := [Jmp(LBegin(c)), Def(LEnd(c))];
    var p1 := [Def(LBegin(c))] + a;
    var p2 := p1 + TestCode(LEnd(c));
    var p3 := p2 + b;
    CountAppend(p3, jd, l);
    CountAppend(p2, b, l);
    CountAppend(p1, TestCode(LEnd(c)), l);
    CountAppend([Def(LBegin(c))], a, l);
    TestCount(LEnd(c), l);
    PairCount(LBegin(c), LEnd(c), l);
    OneCount(Def(LBegin(c)), l);
    var w := p3 + jd;
    var own := (if l == LBegin(c) then 1 else 0) + (if l == LEnd(c) then 1 else 0);
    assert Defs(w, l) == Defs(a, l) + Defs(b, l) + own;
    assert Jumps(w, l) == Jumps(a, l) + Jumps(b, l) + own;
    if l.n == c {
      assert Defs(a, l) == 0 && Defs(b, l) == 0;
    } else {
      assert own == 0;
    }
  }

  /** A `for` at one label; `t` is the condition with its exit test, whose
      only jump outside itself is to `exit`. */
  lemma ForAt(i: seq<Instr>, t: seq<Instr>, b: seq<Instr>, s: seq<Instr>, l: Label, c: int, m1: int, m2: int, m3: int, hi: int)
    requires SoundAt(i, l, c + 1, m1) && SoundAt(b, l, m2, m3) && SoundAt(s, l, m3, hi) && c < m1 <= m2 <= m3 <= hi
    requires Defs(t, l) <= 1 && (Defs(t, l) == 1 ==> m1 <= l.n < m2)
    requires Jumps(t, l) > 0 && l != LEnd(c) ==> Defs(t, l) == 1
    ensures SoundAt(i + [Def(LBegin(c))] + t + b + s + [Jmp(LBegin(c)), Def(LEnd(c))], l, c, hi)
  {
    var jd := [Jmp(LBegin(c)), Def(LEnd(c))];
    var p1 := i + [Def(LBegin(c))];
    var p2 := p1 + t;
    var p3 := p2 + b;
    var p4 := p3 + s;
    CountAppend(p4, jd, l);
    CountAppend(p3, s, l);
    CountAppend(p2, b, l);
    CountAppend(p1, t, l);
    CountAppend(i, [Def(LBegin(c))], l);
    PairCount(LBegin(c), LEnd(c), l);
    OneCount(Def(LBegin(c)), l);
    var w := p4 + jd;
    var own := (if l == LBegin(c) then 1 else 0) + (if l == LEnd(c) then 1 else 0);
    assert Defs(w, l) == Defs(i, l) + Defs(t, l) + Defs(b, l) + Defs(s, l) + own;
    assert Jumps(w, l) == Jumps(i, l) + Jumps(t, l) + Jumps(b, l) + Jumps(s, l) + (if l == LBegin(c) then 1 else 0);
    if l.n == c {
      assert Defs(i, l) == 0 && Defs(t, l) == 0 && Defs(b, l) == 0 && Defs(s, l) == 0;
    } else {
      assert own == 0;
    }
  }

  /** The condition of a `for` with its exit test at one label. */
  lemma ForTestAt(a: seq<Instr>, exit: Label, l: Label, lo: int, hi: int)
    requires SoundAt(a, l, lo, hi)
    ensures Defs(a + TestCode(exit), l) <= 1 && (Defs(a + TestCode(exit), l) == 1 ==> lo <= l.n < hi)
    ensures Jumps(a + TestCode(exit), l) > 0 && l != exit ==> Defs(a + TestCode(exit), l) == 1
  {
    CountAppend(a, TestCode(exit), l);
    TestCount(exit, l);
  }

  /** Two fragments one after the other, labels in adjacent ranges. */
  lemma Chain(a: seq<Instr>, b: seq<Instr>, lo: int, mid: int, hi: int)
    requires LabelsOk(a, lo, mid) && LabelsOk(b, mid, hi) && lo <= mid <= hi
    ensures LabelsOk(a + b, lo, hi)
  {
    forall l ensures SoundAt(a + b, l, lo, hi) {
      assert SoundAt(a, l, lo, mid) && SoundAt(b, l, mid, hi);
      CountAppend(a, b, l);
    }
  }

  /** A label-free fragment around a fragment. */
  lemma Wrap(x: seq<Instr>, a: seq<Instr>, y: seq<Instr>, lo: int, hi: int)
    requires LabelsOk(a, lo, hi)
    requires forall i :: 0 <= i < |x| ==> !x[i].Def? && !x[i].Je? && !x[i].Jmp?
    requires forall i :: 0 <= i < |y| ==> !y[i].Def? && !y[i].Je? && !y[i].Jmp?
    ensures LabelsOk(x + a + y, lo, hi)
  {
    forall l ensures SoundAt(x + a + y, l, lo, hi) {
      assert SoundAt(a, l, lo, hi);
      NoLabels(x, l);
      NoLabels(y, l);
      CountAppend(x + a, y, l);
      CountAppend(x, a, l);
    }
  }

  lemma IfShape(a: seq<Instr>, b: seq<Instr>, e: seq<Instr>, c: int, m1: int, m2: int, hi: int)
    requires LabelsOk(a, c + 1, m1) && LabelsOk(b, m1, m2) && LabelsOk(e, m2, hi) && c < m1 <= m2 <= hi
    ensures LabelsOk(a + TestCode(LElse(c)) + b + [Jmp(LEnd(c)), Def(LElse(c))] + e + [Def(LEnd(c))], c, hi)
  {
    forall l ensures SoundAt(a + TestCode(LElse(c)) + b + [Jmp(LEnd(c)), Def(LElse(c))] + e + [Def(LEnd(c))], l, c, hi) {
      IfAt(a, b, e, l, c, m1, m2, hi);
    }
  }

  lemma WhileShape(a: seq<Instr>, b: seq<Instr>, c: int, m1: int, hi: int)
    requires LabelsOk(a, c + 1, m1) && LabelsOk(b, m1, hi) && c < m1 <= hi
    ensures LabelsOk([Def(LBegin(c))] + a + TestCode(LEnd(c)) + b + [Jmp(LBegin(c)), Def(LEnd(c))], c, hi)
  {
    forall l ensures SoundAt([Def(LBegin(c))] + a + TestCode(LEnd(c)) + b + [Jmp(LBegin(c)), Def(LEnd(c))], l, c, hi) {
      WhileAt(a, b, l, c, m1, hi);
    }
  }

  /** Labels of a `for` condition with its exit test: defined once, in
      range, and jumped to only when defined, except for the exit. */
  ghost predicate ExitOk(t: seq<Instr>, exit: Label, lo: int, hi: int) {
    forall l :: Defs(t, l) <= 1 && (Defs(t, l) == 1 ==> lo <= l.n < hi) && (Jumps(t, l) > 0 && l != exit ==> Defs(t, l) == 1)
  }

  lemma ForTestShape(a: seq<Instr>, exit: Label, lo: int, hi: int)
    requires LabelsOk(a, lo, hi)
    ensures ExitOk(a + TestCode(exit), exit, lo, hi)
  {
    forall l ensures Defs(a + TestCode(exit), l) <= 1 && (Defs(a + TestCode(exit), l) == 1 ==> lo <= l.n < hi) &&
      (Jumps(a + TestCode(exit), l) > 0 && l != exit ==> Defs(a + TestCode(exit), l) == 1) {
      assert SoundAt(a, l, lo, hi);
      ForTestAt(a, exit, l, lo, hi);
    }
  }

  lemma ForShape(i: seq<Instr>, t: seq<Instr>, b: seq<Instr>, s: seq<Instr>, c: int, m1: int, m2: int, m3: int, hi: int)
    requires LabelsOk(i, c + 1, m1) && ExitOk(t, LEnd(c), m1, m2) && LabelsOk(b, m2, m3) && LabelsOk(s, m3, hi) && c < m1 <= m2 <= m3 <= hi
    ensures LabelsOk(i + [Def(LBegin(c))] + t + b + s + [Jmp(LBegin(c)), Def(LEnd(c))], c, hi)
  {
    forall l ensures SoundAt(i + [Def(LBegin(c))] + t + b + s + [Jmp(LBegin(c)), Def(LEnd(c))], l, c, hi) {
      assert SoundAt(i, l, c + 1, m1) && SoundAt(b, l, m2, m3) && SoundAt(s, l, m3, hi);
      ForAt(i, t, b, s, l, c, m1, m2, m3, hi);
    }
  }

  lemma BinShape(op: BinOp, a: seq<Instr>, b: seq<Instr>, lo: int, mid: int, hi: int)
    requires LabelsOk(a, lo, mid) && LabelsOk(b, mid, hi) && lo <= mid <= hi
    ensures LabelsOk(a + b + [Pop(Rdi), Pop(Rax)] + OpCode(op) + [Push(Rax)], lo, hi)
  {
    Chain(a, b, lo, mid, hi);
    var tail := [Pop(Rdi), Pop(Rax)] + OpCode(op) + [Push(Rax)];
    Wrap([], a + b, tail, lo, hi);
    assert [] + (a + b) + tail == a + b + [Pop(Rdi), Pop(Rax)] + OpCode(op) + [Push(Rax)];
  }

  /** Every tree's code defines each label once, only labels numbered from
      the counter on and below the counter it leaves, and jumps only to
      labels it defines itself; so code generated for different trees with
      the counter moving on in between never shares a label. */
  lemma {:induction false} LabelsSound(n: Node, c: int)
    requires GenCode(n, c).Ok?
    ensures LabelsOk(GenCode(n, c).value.0, c, GenCode(n, c).value.1)
    decreases n, 1
  {
    match n
    case Num(v) => NoLabelsOk([PushImm(v)], c, c);
    case LVar(off) => NoLabelsOk(LvalCode(off) + [Pop(Rax), LoadRax, Push(Rax)], c, c);
    case Assign(left, right) =>
      LabelsSound(right, c);
      Wrap(LvalCode(left.offset), GenCode(right, c).value.0, [Pop(Rdi), Pop(Rax), StoreRaxRdi, Push(Rdi)], c, GenCode(right, c).value.1);
    case Bin(op, l, r) =>
      var a := GenCode(l, c).value;
      LabelsSound(l, c);
      LabelsSound(r, a.1);
      BinShape(op, a.0, GenCode(r, a.1).value.0, c, a.1, GenCode(r, a.1).value.1);
    case ReturnStmt(v) =>
      LabelsSound(v, c);
      Chain(GenCode(v, c).value.0, ReturnCode, c, GenCode(v, c).value.1, GenCode(v, c).value.1) by {
        NoLabelsOk(ReturnCode, GenCode(v, c).value.1, GenCode(v, c).value.1);
      }
    case IfStmt(cond, body, els) => IfLabels(cond, body, els, c);
    case ForStmt(init, test, step, body) => ForLabels(init, test, step, body, c);
    case WhileStmt(cond, body) => WhileLabels(cond, body, c);
    case Block(ss) => BlockLabels(ss, c);
  }

  lemma {:induction false} OptLabels(o: Option<Node>, c: int)
    requires GenOpt(o, c).Ok?
    ensures LabelsOk(GenOpt(o, c).value.0, c, GenOpt(o, c).value.1)
    decreases o, 2
  {
    if o.Some? {
      LabelsSound(o.value, c);
    }
  }

  lemma {:induction false} IfLabels(cond: Node, body: Node, els: Option<Node>, c: int)
    requires IfCode(cond, body, els, c).Ok?
    ensures LabelsOk(IfCode(cond, body, els, c).value.0, c, IfCode(cond, body, els, c).value.1)
    decreases IfStmt(cond, body, els), 0
  {
    var a := GenCode(cond, c + 1).value;
    var b := GenCode(body, a.1).value;
    var e := GenOpt(els, b.1).value;
    LabelsSound(cond, c + 1);
    LabelsSound(body, a.1);
    OptLabels(els, b.1);
    IfShape(a.0, b.0, e.0, c, a.1, b.1, e.1);
  }

  lemma {:induction false} WhileLabels(cond: Node, body: Node, c: int)
    requires WhileCode(cond, body, c).Ok?
    ensures LabelsOk(WhileCode(cond, body, c).value.0, c, WhileCode(cond, body, c).value.1)
    decreases WhileStmt(cond, body), 0
  {
    var a := GenCode(cond, c + 1).value;
    var b := GenCode(body, a.1).value;
    LabelsSound(cond, c + 1);
    LabelsSound(body, a.1);
    WhileShape(a.0, b.0, c, a.1, b.1);
  }

  lemma {:induction false} ForLabels(init: Option<Node>, test: Option<Node>, step: Option<Node>, body: Node, c: int)
    requires ForCode(init, test, step, body, c).Ok?
    ensures LabelsOk(ForCode(init, test, step, body, c).value.0, c, ForCode(init, test, step, body, c).value.1)
    decreases ForStmt(init, test, step, body), 0
  {
    var i := GenOpt(init, c + 1).value;
    var t := GenTest(test, LEnd(c), i.1).value;
    var b := GenCode(body, t.1).value;
    var s := GenOpt(step, b.1).value;
    OptLabels(init, c + 1);
    if test.Some? {
      LabelsSound(test.value, i.1);
      ForTestShape(GenCode(test.value, i.1).value.0, LEnd(c), i.1, t.1);
    } else {
      assert ExitOk(t.0, LEnd(c), i.1, t.1) by {
        forall l ensures Defs(t.0, l) == 0 && Jumps(t.0, l) == 0 { NoLabels(t.0, l); }
      }
    }
    LabelsSound(body, t.1);
    OptLabels(step, b.1);
    ForShape(i.0, t.0, b.0, s.0, c, i.1, t.1, b.1, s.1);
  }

  lemma {:induction false} BlockLabels(ss: seq<Node>, c: int)
    requires GenBlock(ss, c).Ok?
    ensures LabelsOk(GenBlock(ss, c).value.0, c, GenBlock(ss, c).value.1)
    decreases ss, 2
  {
    if |ss| > 0 {
      var h := GenCode(ss[0], c).value;
      var t := GenBlock(ss[1..], h.1).value;
      var pop: seq<Instr> := if |ss| > 1 then [Pop(Rax)] else [];
      LabelsSound(ss[0], c);
      BlockLabels(ss[1..], h.1);
      Wrap([], h.0, pop, c, h.1);
      assert [] + h.0 == h.0;
      Chain(h.0 + pop, t.0, c, h.1, t.1);
    } else {
      NoLabelsOk([], c, c);
    }
  }

  /** The top-level statements of `main` take counter values one after the
      other, so their labels are sound together. */
  lemma {:induction false} BodyLabels(prog: seq<Node>, c: int)
    requires GenBody(prog, c).Ok?
    ensures LabelsOk(GenBody(prog, c).value.0, c, GenBody(prog, c).value.1)
    decreases |prog|
  {
    if |prog| > 0 {
      var h := GenCode(prog[0], c).value;
      var t := GenBody(prog[1..], h.1).value;
      LabelsSound(prog[0], c);
      BodyLabels(prog[1..], h.1);
      Wrap([], h.0, [Pop(Rax)], c, h.1);
      assert [] + h.0 == h.0;
      Chain(h.0 + [Pop(Rax)], t.0, c, h.1, t.1);
    } else {
      NoLabelsOk([], c, c);
    }
  }

  /** The whole of `main`, with the counter starting at 1 as `count` does:
      no label is defined twice, every jump has its label, and the labels are
      numbered 1, 2, 3, ... */
  lemma ProgramLabels(prog: seq<Node>, offsets: seq<int>)
    requires GenProgram(prog, offsets, 1).Ok?
    ensures LabelsOk(GenProgram(prog, offsets, 1).value.0, 1, GenProgram(prog, offsets, 1).value.1)
  {
    BodyLabels(prog, 1);
    Wrap(Prologue(FrameSize(offsets)), GenBody(prog, 1).value.0, Epilogue, 1, GenBody(prog, 1).value.1);
  }

  /** Labels numbered outside a fragment's range are neither defined nor
      jumped to in it. */
  lemma Outside(code: seq<Instr>, l: Label, lo: int, hi: int)
    requires LabelsOk(code, lo, hi) && !(lo <= l.n < hi)
    ensures Defs(code, l) == 0 && Jumps(code, l) == 0
  {
    assert SoundAt(code, l, lo, hi);
  }

  /** An `if` defines `.Lelse<c>` and `.Lend<c>` once each and jumps to each
      once, whether or not it has an `else` branch. */
  lemma IfOwnLabels(cond: Node, body: Node, els: Option<Node>, c: int)
    requires IfCode(cond, body, els, c).Ok?
    ensures var code := IfCode(cond, body, els, c).value.0;
      Defs(code, LElse(c)) == 1 && Defs(code, LEnd(c)) == 1 && Jumps(code, LElse(c)) == 1 && Jumps(code, LEnd(c)) == 1
  {
    var a := GenCode(cond, c + 1).value;
    var b := GenCode(body, a.1).value;
    var e := GenOpt(els, b.1).value;
    LabelsSound(cond, c + 1);
    LabelsSound(body, a.1);
    OptLabels(els, b.1);
    forall l | l == LElse(c) || l == LEnd(c)
      ensures Defs(IfCode(cond, body, els, c).value.0, l) == 1 && Jumps(IfCode(cond, body, els, c).value.0, l) == 1
    {
      Outside(a.0, l, c + 1, a.1);
      Outside(b.0, l, a.1, b.1);
      Outside(e.0, l, b.1, e.1);
      IfCounts(a.0, b.0, e.0, l, c);
    }
  }

  lemma IfCounts(a: seq<Instr>, b: seq<Instr>, e: seq<Instr>, l: Label, c: int)
    requires Defs(a, l) == 0 && Defs(b, l) == 0 && Defs(e, l) == 0
    requires Jumps(a, l) == 0 && Jumps(b, l) == 0 && Jumps(e, l) == 0
    requires l == LElse(c) || l == LEnd(c)
    ensures var code := a + TestCode(LElse(c)) + b + [Jmp(LEnd(c)), Def(LElse(c))] + e + [Def(LEnd(c))];
      Defs(code, l) == 1 && Jumps(code, l) == 1
  {
    var jd := [Jmp(LEnd(c)), Def(LElse(c))];
    var p1 := a + TestCode(LElse(c));
    var p2 := p1 + b;
    var p3 := p2 + jd;
    var p4 := p3 + e;
    CountAppend(p4, [Def(LEnd(c))], l);
    CountAppend(p3, e, l);
    CountAppend(p2, jd, l);
    CountAppend(p1, b, l);
    CountAppend(a, TestCode(LElse(c)), l);
    TestCount(LElse(c), l);
    PairCount(LEnd(c), LElse(c), l);
    OneCount(Def(LEnd(c)), l);
  }

  /** Without `else`, `.Lelse<c>:` is followed directly by `.Lend<c>:`: a
      false condition skips the body and falls through to the end. */
  lemma IfWithoutElse(cond: Node, body: Node, c: int)
    requires IfCode(cond, body, None, c).Ok?
    ensures var code := IfCode(cond, body, None, c).value.0;
      |code| >= 3 && code[|code| - 2] == Def(LElse(c)) && code[|code| - 1] == Def(LEnd(c))
  {
    var a := GenCode(cond, c + 1).value;
    var b := GenCode(body, a.1).value;
    var code := IfCode(cond, body, None, c).value.0;
    assert code == (a.0 + TestCode(LElse(c)) + b.0 + [Jmp(LEnd(c))]) + [Def(LElse(c)), Def(LEnd(c))];
  }

  /** A `for` jumps to its exit `.Lend<c>` exactly when it has a condition;
      it always defines `.Lbegin<c>` and `.Lend<c>` and jumps back once. */
  lemma ForOwnLabels(init: Option<Node>, test: Option<Node>, step: Option<Node>, body: Node, c: int)
    requires ForCode(init, test, step, body, c).Ok?
    ensures var code := ForCode(init, test, step, body, c).value.0;
      && Defs(code, LBegin(c)) == 1 && Defs(code, LEnd(c)) == 1 && Jumps(code, LBegin(c)) == 1
      && Jumps(code, LEnd(c)) == (if test.Some? then 1 else 0)
  {
    var i := GenOpt(init, c + 1).value;
    var t := GenTest(test, LEnd(c), i.1).value;
    var b := GenCode(body, t.1).value;
    var s := GenOpt(step, b.1).value;
    OptLabels(init, c + 1);
    LabelsSound(body, t.1);
    OptLabels(step, b.1);
    forall l | l == LBegin(c) || l == LEnd(c)
      ensures var code := ForCode(init, test, step, body, c).value.0;
        Defs(code, l) == 1 && Jumps(code, l) == (if l == LBegin(c) || test.Some? then 1 else 0)
    {
      Outside(i.0, l, c + 1, i.1);
      Outside(b.0, l, t.1, b.1);
      Outside(s.0, l, b.1, s.1);
      if test.Some? {
        var a := GenCode(test.value, i.1).value;
        LabelsSound(test.value, i.1);
        Outside(a.0, l, i.1, a.1);
        CountAppend(a.0, TestCode(LEnd(c)), l);
        TestCount(LEnd(c), l);
      } else {
        NoLabels(t.0, l);
      }
      ForCounts(i.0, t.0, b.0, s.0, l, c);
    }
  }

  lemma ForCounts(i: seq<Instr>, t: seq<Instr>, b: seq<Instr>, s: seq<Instr>, l: Label, c: int)
    requires Defs(i, l) == 0 && Defs(t, l) == 0 && Defs(b, l) == 0 && Defs(s, l) == 0
    requires Jumps(i, l) == 0 && Jumps(b, l) == 0 && Jumps(s, l) == 0
    requires l == LBegin(c) || l == LEnd(c)
    ensures var code := i + [Def(LBegin(c))] + t + b + s + [Jmp(LBegin(c)), Def(LEnd(c))];
      Defs(code, l) == 1 && Jumps(code, l) == (if l == LBegin(c) then 1 else 0) + Jumps(t, l)
  {
    var jd := [Jmp(LBegin(c)), Def(LEnd(c))];
    var p1 := i + [Def(LBegin(c))];
    var p2 := p1 + t;
    var p3 := p2 + b;
    var p4 := p3 + s;
    CountAppend(p4, jd, l);
    CountAppend(p3, s, l);
    CountAppend(p2, b, l);
    CountAppend(p1, t, l);
    CountAppend(i, [Def(LBegin(c))], l);
    PairCount(LBegin(c), LEnd(c), l);
    OneCount(Def(LBegin(c)), l);
  }

  /** `for (;;) body` is the body between `.Lbegin<c>:` and a jump back to
      it: nothing else is emitted. */
  lemma ForEver(body: Node, c: int)
    requires ForCode(None, None, None, body, c).Ok?
    ensures ForCode(None, None, None, body, c).value.0 ==
      [Def(LBegin(c))] + GenCode(body, c + 1).value.0 + [Jmp(LBegin(c)), Def(LEnd(c))]
  {
    var b := GenCode(body, c + 1).value;
    assert [] + [Def(LBegin(c))] + [] + b.0 + [] == [Def(LBegin(c))] + b.0;
  }

  // ---------------------------------------------------------------------
  // Values on the stack

  /** Trees the expression grammar builds: numbers, variables, assignments
      to a variable and binary operators. */
  predicate IsExpr(n: Node) {
    match n
    case Num(_) => true
    case LVar(_) => true
    case Assign(l, r) => l.LVar? && IsExpr(r)
    case Bin(_, l, r) => IsExpr(l) && IsExpr(r)
    case _ => false
  }

  /** A value and the memory after computing it, or a fault. */
  type Outcome = Option<(int, map<int, int>)>

  /** What a tree computes when it runs straight through: a variable is the
      word at `rbp - offset`, an assignment stores its right side there and
      has its value, a binary operator applies to its operands computed left
      then right, and a block is its last statement. Statements that jump or
      return do not run straight through. */
  function Eval(n: Node, rbp: int, mem: map<int, int>): Outcome
    decreases n, 1
  {
    match n
    case Num(v) => Some((v, mem))
    case LVar(off) => Some((Read(mem, rbp - off), mem))
    case Assign(l, r) =>
      if !l.LVar? then None
      else (match Eval(r, rbp, mem)
        case None => None
        case Some(x) => Some((x.0, x.1[rbp - l.offset := x.0])))
    case Bin(op, l, r) =>
      (match Eval(l, rbp, mem)
        case None => None
        case Some(a) =>
          (match Eval(r, rbp, a.1)
            case None => None
            case Some(b) =>
              (match Apply(op, a.0, b.0)
                case None => None
                case Some(v) => Some((v, b.1)))))
    case Block(ss) => EvalBlock(ss, rbp, mem)
    case _ => None
  }

  /** A block's statements in order; its value is the last one's. An empty
      block has no value. */
  function EvalBlock(ss: seq<Node>, rbp: int, mem: map<int, int>): Outcome
    decreases ss, 0
  {
    if |ss| == 0 then None
    else match Eval(ss[0], rbp, mem)
      case None => None
      case Some(a) => if |ss| == 1 then Some(a) else EvalBlock(ss[1..], rbp, a.1)
  }

  /** `s` ran to `t`, which holds one more value, `v`, on the stack, the
      memory `m`, and the same frame. */
  ghost predicate Pushed(t: Option<State>, s: State, v: int, m: map<int, int>) {
    t.Some? && t.value.stack == s.stack + [v] && t.value.mem == m && t.value.rbp == s.rbp
  }

  lemma RunCons(i: Instr, rest: seq<Instr>, s: State)
    requires Exec(i, s).Some?
    ensures Run([i] + rest, s) == Run(rest, Exec(i, s).value)
  {
    assert ([i] + rest)[0] == i && ([i] + rest)[1..] == rest;
  }

  /** The machine after `gen_lval` of the slot at `off`. */
  function LvalState(off: int, s: State): State {
    s.(rax := s.rbp - off, stack := s.stack + [s.rbp - off])
  }

  lemma LvalRun(off: int, s: State)
    ensures Run(LvalCode(off), s) == Some(LvalState(off, s))
  {
    var s1 := s.(rax := s.rbp);
    var s2 := s.(rax := s.rbp - off);
    assert Exec(MovRaxRbp, s) == Some(s1);
    assert Exec(SubRaxImm(off), s1) == Some(s2);
    assert Exec(Push(Rax), s2) == Some(s2.(stack := s.stack + [s.rbp - off]));
    assert LvalCode(off) == [MovRaxRbp] + ([SubRaxImm(off)] + [Push(Rax)]);
    RunCons(MovRaxRbp, [SubRaxImm(off)] + [Push(Rax)], s);
    RunCons(SubRaxImm(off), [Push(Rax)], s1);
    RunOne(Push(Rax), s2);
  }

  lemma LoadRun(s: State, before: State, a: int)
    requires s.stack == before.stack + [a] && s.rbp == before.rbp
    ensures Pushed(Run([Pop(Rax), LoadRax, Push(Rax)], s), before, Read(s.mem, a), s.mem)
  {
    var base := before.stack;
    var s1 := s.(stack := base, rax := a);
    var s2 := s1.(rax := Read(s.mem, a));
    assert s.stack[..|s.stack| - 1] == base;
    assert Exec(Pop(Rax), s) == Some(s1);
    assert Exec(LoadRax, s1) == Some(s2);
    assert [Pop(Rax), LoadRax, Push(Rax)] == [Pop(Rax)] + ([LoadRax] + [Push(Rax)]);
    RunCons(Pop(Rax), [LoadRax] + [Push(Rax)], s);
    RunCons(LoadRax, [Push(Rax)], s1);
    RunOne(Push(Rax), s2);
  }

  lemma StoreRun(s: State, base: seq<int>, a: int, v: int)
    requires s.stack == base + [a] + [v]
    ensures Pushed(Run([Pop(Rdi), Pop(Rax), StoreRaxRdi, Push(Rdi)], s), s.(stack := base), v, s.mem[a := v])
  {
    var s1 := s.(stack := base + [a], rdi := v);
    var s2 := s1.(stack := base, rax := a);
    var s3 := s2.(mem := s.mem[a := v]);
    assert s.stack[..|s.stack| - 1] == base + [a];
    assert (base + [a])[..|base|] == base;
    assert Exec(Pop(Rdi), s) == Some(s1);
    assert Exec(Pop(Rax), s1) == Some(s2);
    assert Exec(StoreRaxRdi, s2) == Some(s3);
    assert [Pop(Rdi), Pop(Rax), StoreRaxRdi, Push(Rdi)] == [Pop(Rdi)] + ([Pop(Rax)] + ([StoreRaxRdi] + [Push(Rdi)]));
    RunCons(Pop(Rdi), [Pop(Rax)] + ([StoreRaxRdi] + [Push(Rdi)]), s);
    RunCons(Pop(Rax), [StoreRaxRdi] + [Push(Rdi)], s1);
    RunCons(StoreRaxRdi, [Push(Rdi)], s2);
    RunOne(Push(Rdi), s3);
  }

  lemma PopRun(s: State, base: seq<int>, v: int)
    requires s.stack == base + [v]
    ensures Run([Pop(Rax)], s) == Some(s.(stack := base, rax := v))
  {
    RunOne(Pop(Rax), s);
    assert s.stack[..|s.stack| - 1] == base;
  }

  /** The code of a tree that runs straight through leaves exactly its value
      on top of the stack it started from, with the memory the tree's
      assignments produce, and keeps the frame. For a tree the expression
      grammar builds, the code faults exactly when the tree has no value: on
      a division by zero. */
  lemma {:induction false} ExprCorrect(n: Node, c: int, s: State)
    requires GenCode(n, c).Ok?
    ensures Eval(n, s.rbp, s.mem).Some? ==>
      Pushed(Run(GenCode(n, c).value.0, s), s, Eval(n, s.rbp, s.mem).value.0, Eval(n, s.rbp, s.mem).value.1)
    ensures IsExpr(n) ==> (Run(GenCode(n, c).value.0, s).Some? <==> Eval(n, s.rbp, s.mem).Some?)
    decreases n, 1
  {
    match n
    case Num(v) => RunOne(PushImm(v), s);
    case LVar(off) => LVarCorrect(off, s);
    case Assign(left, right) => AssignCorrect(left, right, c, s);
    case Bin(op, l, r) => BinCorrect(op, l, r, c, s);
    case Block(ss) => BlockCorrect(ss, c, s);
    case ReturnStmt(_) =>
    case IfStmt(_, _, _) =>
    case ForStmt(_, _, _, _) =>
    case WhileStmt(_, _) =>
  }

  lemma LVarCorrect(off: int, s: State)
    ensures Pushed(Run(LvalCode(off) + [Pop(Rax), LoadRax, Push(Rax)], s), s, Read(s.mem, s.rbp - off), s.mem)
  {
    var s1 := LvalState(off, s);
    LvalRun(off, s);
    RunThen(LvalCode(off), [Pop(Rax), LoadRax, Push(Rax)], s, s1);
    LoadRun(s1, s, s.rbp - off);
  }

  /** A fragment that ends in `t` hands `t` to the fragment after it. */
  lemma RunThen(a: seq<Instr>, b: seq<Instr>, s: State, t: State)
    requires Run(a, s) == Some(t)
    ensures Run(a + b, s) == Run(b, t)
  {
    RunAppend(a, b, s);
  }

  lemma {:induction false} AssignCorrect(left: Node, right: Node, c: int, s: State)
    requires GenCode(Assign(left, right), c).Ok?
    ensures var n := Assign(left, right);
      && (Eval(n, s.rbp, s.mem).Some? ==>
        Pushed(Run(GenCode(n, c).value.0, s), s, Eval(n, s.rbp, s.mem).value.0, Eval(n, s.rbp, s.mem).value.1))
      && (IsExpr(n) ==> (Run(GenCode(n, c).value.0, s).Some? <==> Eval(n, s.rbp, s.mem).Some?))
    decreases Assign(left, right), 0
  {
    var g := GenCode(right, c).value;
    var s1 := LvalState(left.offset, s);
    LvalRun(left.offset, s);
    ExprCorrect(right, c, s1);
    AssignRun(LvalCode(left.offset), g.0, s, s1, s.rbp - left.offset, Eval(right, s.rbp, s.mem), IsExpr(right));
  }

  /** A fragment that pushes an address, then the right side, then the
      store: the stitching behind `AssignCorrect`. */
  lemma AssignRun(lv: seq<Instr>, code: seq<Instr>, s: State, s1: State, addr: int, e: Outcome, isExpr: bool)
    requires Run(lv, s) == Some(s1) && s1.stack == s.stack + [addr] && s1.mem == s.mem && s1.rbp == s.rbp
    requires e.Some? ==> Pushed(Run(code, s1), s1, e.value.0, e.value.1)
    requires isExpr ==> (Run(code, s1).Some? <==> e.Some?)
    ensures var t := Run(lv + code + [Pop(Rdi), Pop(Rax), StoreRaxRdi, Push(Rdi)], s);
      && (e.Some? ==> Pushed(t, s, e.value.0, e.value.1[addr := e.value.0]))
      && (isExpr ==> (t.Some? <==> e.Some?))
  {
    var tail := [Pop(Rdi), Pop(Rax), StoreRaxRdi, Push(Rdi)];
    RunThen(lv, code, s, s1);
    var r := Run(code, s1);
    if r.Some? {
      RunThen(lv + code, tail, s, r.value);
      if e.Some? {
        StoreRun(r.value, s.stack, addr, e.value.0);
      }
    } else {
      RunAppend(lv + code, tail, s);
    }
  }

  lemma {:induction false} BinCorrect(op: BinOp, l: Node, r: Node, c: int, s: State)
    requires GenCode(Bin(op, l, r), c).Ok?
    ensures var n := Bin(op, l, r);
      && (Eval(n, s.rbp, s.mem).Some? ==>
        Pushed(Run(GenCode(n, c).value.0, s), s, Eval(n, s.rbp, s.mem).value.0, Eval(n, s.rbp, s.mem).value.1))
      && (IsExpr(n) ==> (Run(GenCode(n, c).value.0, s).Some? <==> Eval(n, s.rbp, s.mem).Some?))
    decreases Bin(op, l, r), 0
  {
    var a := GenCode(l, c).value;
    var b := GenCode(r, a.1).value;
    assert GenCode(Bin(op, l, r), c).value.0 == a.0 + b.0 + BinTail(op);
    ExprCorrect(l, c, s);
    var x := Eval(l, s.rbp, s.mem);
    if x.None? {
      if IsExpr(l) {
        Fails(a.0, b.0, BinTail(op), s);
      }
    } else {
      var s1 := Run(a.0, s).value;
      ExprCorrect(r, a.1, s1);
      var y := Eval(r, s.rbp, x.value.1);
      if y.None? {
        if IsExpr(r) {
          FailsSecond(a.0, b.0, BinTail(op), s);
        }
      } else {
        BinStep(op, a.0, b.0, s, x.value.0, x.value.1, y.value.0, y.value.1);
      }
    }
  }

  function BinTail(op: BinOp): seq<Instr> {
    [Pop(Rdi), Pop(Rax)] + OpCode(op) + [Push(Rax)]
  }

  lemma Fails(p: seq<Instr>, q: seq<Instr>, u: seq<Instr>, s: State)
    requires Run(p, s).None?
    ensures Run(p + q + u, s).None?
  {
    RunAppend(p + q, u, s);
    RunAppend(p, q, s);
  }

  lemma FailsSecond(p: seq<Instr>, q: seq<Instr>, u: seq<Instr>, s: State)
    requires Run(p, s).Some? && Run(q, Run(p, s).value).None?
    ensures Run(p + q + u, s).None?
  {
    RunAppend(p + q, u, s);
    RunAppend(p, q, s);
  }

  /** Two operand values pushed one after the other, then the operator. */
  lemma BinStep(op: BinOp, p: seq<Instr>, q: seq<Instr>, s: State, x: int, mx: map<int, int>, y: int, my: map<int, int>)
    requires Pushed(Run(p, s), s, x, mx)
    requires Pushed(Run(q, Run(p, s).value), Run(p, s).value, y, my)
    ensures Run(p + q + BinTail(op), s).Some? <==> Apply(op, x, y).Some?
    ensures Apply(op, x, y).Some? ==> Pushed(Run(p + q + BinTail(op), s), s, Apply(op, x, y).value, my)
  {
    RunAppend(p + q, BinTail(op), s);
    RunAppend(p, q, s);
    var s2 := Run(q, Run(p, s).value).value;
    assert s2.stack == s.stack + [x] + [y];
    TailCorrect(op, s2, s.stack, x, y);
  }

  lemma {:induction false} BlockCorrect(ss: seq<Node>, c: int, s: State)
    requires GenBlock(ss, c).Ok?
    ensures EvalBlock(ss, s.rbp, s.mem).Some? ==>
      Pushed(Run(GenBlock(ss, c).value.0, s), s, EvalBlock(ss, s.rbp, s.mem).value.0, EvalBlock(ss, s.rbp, s.mem).value.1)
    decreases ss, 0
  {
    if |ss| > 0 && EvalBlock(ss, s.rbp, s.mem).Some? {
      var h := GenCode(ss[0], c).value;
      var t := GenBlock(ss[1..], h.1).value;
      var x := Eval(ss[0], s.rbp, s.mem).value;
      ExprCorrect(ss[0], c, s);
      var s1 := Run(h.0, s).value;
      if |ss| == 1 {
        assert GenBlock(ss, c).value.0 == h.0;
      } else {
        var pop := [Pop(Rax)];
        assert GenBlock(ss, c).value.0 == h.0 + pop + t.0;
        RunAppend(h.0 + pop, t.0, s);
        RunAppend(h.0, pop, s);
        PopRun(s1, s.stack, x.0);
        var s2 := s1.(stack := s.stack, rax := x.0);
        BlockCorrect(ss[1..], h.1, s2);
      }
    }
  }

  /** The top-level statements run one after the other; `rax` ends up with
      the last one's value, or `last` when there are none. */
  function EvalBody(prog: seq<Node>, rbp: int, mem: map<int, int>, last: int): Outcome
    decreases |prog|
  {
    if |prog| == 0 then Some((last, mem))
    else match Eval(prog[0], rbp, mem)
      case None => None
      case Some(a) => EvalBody(prog[1..], rbp, a.1, a.0)
  }

  /** `codegen` pops every top-level statement's value into `rax`: the
      statements leave the stack as they found it, and `rax` holds the last
      one's value, which the epilogue returns from `main`. */
  lemma {:induction false} BodyCorrect(prog: seq<Node>, c: int, s: State)
    requires GenBody(prog, c).Ok?
    ensures var e := EvalBody(prog, s.rbp, s.mem, s.rax); var t := Run(GenBody(prog, c).value.0, s);
      e.Some? ==> t.Some? && t.value.stack == s.stack && t.value.rax == e.value.0 && t.value.mem == e.value.1 && t.value.rbp == s.rbp
    decreases |prog|
  {
    if |prog| > 0 && EvalBody(prog, s.rbp, s.mem, s.rax).Some? {
      var h := GenCode(prog[0], c).value;
      var t := GenBody(prog[1..], h.1).value;
      var x := Eval(prog[0], s.rbp, s.mem).value;
      ExprCorrect(prog[0], c, s);
      var s1 := Run(h.0, s).value;
      RunAppend(h.0 + [Pop(Rax)], t.0, s);
      RunAppend(h.0, [Pop(Rax)], s);
      PopRun(s1, s.stack, x.0);
      BodyCorrect(prog[1..], h.1, s1.(stack := s.stack, rax := x.0));
    }
  }

  /** `{1; {2;} 3;}`: the inner block's value is popped like any other
      statement's, and the outer block leaves 3. */
  lemma NestedBlockValue(c: int, s: State)
    ensures var n := Block([Num(1), Block([Num(2)]), Num(3)]);
      GenCode(n, c).Ok? && Pushed(Run(GenCode(n, c).value.0, s), s, 3, s.mem)
  {
    var n := Block([Num(1), Block([Num(2)]), Num(3)]);
    assert Eval(Num(3), s.rbp, s.mem) == Some((3, s.mem));
    assert EvalBlock([Num(3)], s.rbp, s.mem) == Some((3, s.mem));
    assert [Num(1), Block([Num(2)]), Num(3)][1..][1..] == [Num(3)];
    assert EvalBlock([Num(2)], s.rbp, s.mem) == Some((2, s.mem));
    assert EvalBlock([Block([Num(2)]), Num(3)], s.rbp, s.mem) == Some((3, s.mem));
    assert Eval(n, s.rbp, s.mem) == Some((3, s.mem));
    ExprCorrect(n, c, s);
  }

  /** The generator accepts an expression exactly when every assignment in
      it is to a variable, and then it is a tree `Eval` covers. */
  lemma {:induction false} AcceptedIsExpr(n: Node, c: int)
    requires Expression(n) && GenCode(n, c).Ok?
    ensures IsExpr(n)
    decreases n
  {
    match n
    case Num(_) =>
    case LVar(_) =>
    case Assign(l, r) => AcceptedIsExpr(r, c);
    case Bin(_, l, r) =>
      AcceptedIsExpr(l, c);
      AcceptedIsExpr(r, GenCode(l, c).value.1);
  }

  /** Every expression the parser builds and the generator accepts leaves
      exactly its value on the stack, and its code faults only when the
      expression has no value, that is on a division by zero. */
  lemma ParsedExprCorrect(ts: seq<Token>, i: nat, l: Locals, c: int, s: State)
    requires ValidTokens(ts) && i < |ts| && ParseExpr(ts, i, l).Ok?
    requires GenCode(ParseExpr(ts, i, l).value.0, c).Ok?
    ensures var n := ParseExpr(ts, i, l).value.0; var t := Run(GenCode(n, c).value.0, s);
      && (t.Some? <==> Eval(n, s.rbp, s.mem).Some?)
      && (t.Some? ==> Pushed(t, s, Eval(n, s.rbp, s.mem).value.0, Eval(n, s.rbp, s.mem).value.1))
  {
    var n := ParseExpr(ts, i, l).value.0;
    ExprShaped(ts, i, l);
    AcceptedIsExpr(n, c);
    ExprCorrect(n, c, s);
  }
}
