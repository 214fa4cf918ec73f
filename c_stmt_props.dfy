/// Properties of the statement grammar and of whole translation units:
/// every function compiled has a block for its body, at most six
/// parameters and only well-numbered calls; the redefinition check never
/// fires; and the three places where the source as written parses a
/// well-formed program wrongly, each beside its corrected behaviour.

module CStmtProps {
  import opened Util
  import opened Types
  import opened Sym
  import opened CLex
  import opened CTokens
  import opened CExpr
  import opened CExprProps
  import opened CDecltr
  import opened CDecltrProps
  import opened CStmt

  predicate AllOk(ss: seq<Node>) {
    forall k :: 0 <= k < |ss| ==> CallsOk(ss[k])
  }

  predicate SGood(r: SParsed) {
    r.Ok? ==> CallsOk(r.value.0)
  }

  lemma AllOkCons(s: Node, rest: seq<Node>)
    requires CallsOk(s) && AllOk(rest)
    ensures AllOk([s] + rest)
  {
    var ss := [s] + rest;
    forall k | 0 <= k < |ss|
      ensures CallsOk(ss[k])
    {
      if k > 0 {
        assert ss[k] == rest[k - 1];
      }
    }
  }

  lemma {:induction false} StmtCalls(ts: seq<Token>, i: nat, st: St, d: Dialect)
    requires ValidTokens(ts) && i < |ts| && Sound(st)
    ensures SGood(ParseStmt(ts, i, st, d))
    decreases |ts| - i, 2
  {
    if Equal(ts[i], "{") {
      EqualConsumes(ts, i, "{");
      CmpCalls(ts, i, st, d);
    } else if ts[i].kind == If {
      SelectCalls(ts, i, st, d);
    } else if ts[i].kind == Return {
      JumpCalls(ts, i, st, d);
    } else if ts[i].kind == While || ts[i].kind == For {
      IterCalls(ts, i, st, d);
    } else {
      ExprStatementCalls(ts, i, st, d);
    }
  }

  lemma ExprStatementCalls(ts: seq<Token>, i: nat, st: St, d: Dialect)
    requires ValidTokens(ts) && i < |ts| && Sound(st)
    ensures SGood(ExprStatement(ts, i, st, d))
  {
    if !Consumes(ts[i], ";") {
      ExprCalls(ts, i, st.tab, d);
    }
  }

  lemma {:induction false} CmpCalls(ts: seq<Token>, i: nat, st: St, d: Dialect)
    requires ValidTokens(ts) && i < |ts| && Sound(st)
    ensures SGood(CmpStmt(ts, i, st, d))
    decreases |ts| - i, if Consumes(ts[i], "{") then 1 else 5
  {
    var j := if Consumes(ts[i], "{") then i + 1 else i;
    var s1 := OptDecl(ts, j, Enter(st), d);
    if s1.Ok? {
      BlockBodyCalls(ts, s1.value.1, s1.value.0, d);
    }
  }

  lemma {:induction false} BlockBodyCalls(ts: seq<Token>, i: nat, st: St, d: Dialect)
    requires ValidTokens(ts) && i < |ts| && Sound(st)
    ensures SGood(BlockBody(ts, i, st, d))
    decreases |ts| - i, 4
  {
    if !Equal(ts[i], "}") {
      StmtListCalls(ts, i, st, d);
    }
  }

  lemma {:induction false} StmtListCalls(ts: seq<Token>, i: nat, st: St, d: Dialect)
    requires ValidTokens(ts) && i < |ts| && Sound(st)
    ensures StmtList(ts, i, st, d).Ok? ==> AllOk(StmtList(ts, i, st, d).value.0)
    decreases |ts| - i, 3
  {
    if !(ts[i].kind == Eof || StartsWith(ts[i].text, "}")) {
      var s1 := OptDecl(ts, i, st, d);
      if s1.Ok? {
        StmtCalls(ts, s1.value.1, s1.value.0, d);
        var s := ParseStmt(ts, s1.value.1, s1.value.0, d);
        if s.Ok? {
          StmtListCalls(ts, s.value.1, s.value.2, d);
          var rest := StmtList(ts, s.value.1, s.value.2, d);
          if rest.Ok? {
            AllOkCons(s.value.0, rest.value.0);
          }
        }
      }
    }
  }

  lemma {:induction false} SelectCalls(ts: seq<Token>, i: nat, st: St, d: Dialect)
    requires ValidTokens(ts) && i < |ts| && Sound(st) && ts[i].kind == If
    ensures SGood(SelectStmt(ts, i, st, d))
    decreases |ts| - i, 1
  {
    if Consumes(ts[i + 1], "(") {
      ExprCalls(ts, i + 2, st.tab, d);
      var c := ParseExpr(ts, i + 2, st.tab, d);
      if c.Ok? && Consumes(ts[c.value.1], ")") {
        IfArmsCalls(ts, c.value.1 + 1, st, c.value.0, d);
      }
    }
  }

  lemma {:induction false} IfArmsCalls(ts: seq<Token>, i: nat, st: St, cond: Node, d: Dialect)
    requires ValidTokens(ts) && i < |ts| && Sound(st) && CallsOk(cond)
    ensures SGood(IfArms(ts, i, st, cond, d))
    decreases |ts| - i, 3
  {
    StmtCalls(ts, i, st, d);
    var body := ParseStmt(ts, i, st, d);
    if body.Ok? {
      ElseArmCalls(ts, body.value.1, body.value.2, cond, body.value.0, d);
    }
  }

  lemma {:induction false} ElseArmCalls(ts: seq<Token>, i: nat, st: St, cond: Node, body: Node, d: Dialect)
    requires ValidTokens(ts) && i < |ts| && Sound(st) && CallsOk(cond) && CallsOk(body)
    ensures SGood(ElseArm(ts, i, st, cond, body, d))
    decreases |ts| - i, 0
  {
    if ts[i].kind == Else {
      StmtCalls(ts, i + 1, st, d);
      var els := ParseStmt(ts, i + 1, st, d);
      if els.Ok? {
        IfNodeCalls(cond, body, Some(els.value.0));
      }
    } else {
      IfNodeCalls(cond, body, None);
    }
  }

  lemma IfNodeCalls(cond: Node, body: Node, els: Option<Node>)
    requires CallsOk(cond) && CallsOk(body) && (els.Some? ==> CallsOk(els.value))
    ensures CallsOk(IfStmt(cond, body, els))
  {
  }

  lemma ClauseCalls(ts: seq<Token>, i: nat, tab: Table, d: Dialect, close: string)
    requires ValidTokens(ts) && i < |ts| && WellFormed(tab)
    ensures Clause(ts, i, tab, d, close).Ok? && Clause(ts, i, tab, d, close).value.0.Some? ==>
      CallsOk(Clause(ts, i, tab, d, close).value.0.value)
  {
    if !Consumes(ts[i], close) {
      ExprCalls(ts, i, tab, d);
    }
  }

  lemma {:induction false} IterCalls(ts: seq<Token>, i: nat, st: St, d: Dialect)
    requires ValidTokens(ts) && i < |ts| && Sound(st) && (ts[i].kind == While || ts[i].kind == For)
    ensures SGood(IterStmt(ts, i, st, d))
    decreases |ts| - i, 1
  {
    if Consumes(ts[i + 1], "(") {
      if ts[i].kind == While {
        WhileCalls(ts, i + 2, st, d);
      } else {
        ForCalls(ts, i + 2, st, d);
      }
    }
  }

  lemma {:induction false} WhileCalls(ts: seq<Token>, i: nat, st: St, d: Dialect)
    requires ValidTokens(ts) && i < |ts| && Sound(st)
    ensures SGood(WhileLoop(ts, i, st, d))
    decreases |ts| - i, 0
  {
    ExprCalls(ts, i, st.tab, d);
    var c := ParseExpr(ts, i, st.tab, d);
    if c.Ok? && Consumes(ts[c.value.1], ")") {
      StmtCalls(ts, c.value.1 + 1, st, d);
    }
  }

  lemma {:induction false} ForCalls(ts: seq<Token>, i: nat, st: St, d: Dialect)
    requires ValidTokens(ts) && i < |ts| && Sound(st)
    ensures SGood(ForLoop(ts, i, st, d))
    decreases |ts| - i, 0
  {
    ClauseCalls(ts, i, st.tab, d, ";");
    var init := Clause(ts, i, st.tab, d, ";");
    if init.Ok? {
      ClauseCalls(ts, init.value.1, st.tab, d, ";");
      var cond := Clause(ts, init.value.1, st.tab, d, ";");
      if cond.Ok? {
        ClauseCalls(ts, cond.value.1, st.tab, d, ")");
        var step := Clause(ts, cond.value.1, st.tab, d, ")");
        if step.Ok? {
          StmtCalls(ts, step.value.1, st, d);
        }
      }
    }
  }

  lemma JumpCalls(ts: seq<Token>, i: nat, st: St, d: Dialect)
    requires ValidTokens(ts) && i < |ts| && Sound(st) && ts[i].kind == Return
    ensures SGood(JumpStmt(ts, i, st, d))
  {
    if !Consumes(ts[i + 1], ";") {
      ExprCalls(ts, i + 1, st.tab, d);
    }
  }

  /** What the code generator relies on in a compiled function: its body
      is a block, it has at most six parameters, counted from its parameter
      vector, and every call in it passes at most six arguments numbered
      from the last one down. */
  predicate Compiled(f: FuncDef) {
    && f.code.Block? && CallsOk(f.code)
    && f.nparams <= 6 && f.nparams == (if f.params.Some? then |f.params.value| else 0)
  }

  lemma FuncDefnCompiled(ts: seq<Token>, i: nat, st: St, id: Option<string>, fty: Type,
                         params: Option<seq<nat>>, d: Dialect)
    requires ValidTokens(ts) && i < |ts| && Sound(st)
    ensures FuncDefn(ts, i, st, id, fty, params, d).Ok? ==> Compiled(FuncDefn(ts, i, st, id, fty, params, d).value.0)
  {
    var j := if d == AsWritten && Consumes(ts[i], "{") then i + 1 else i;
    CmpCalls(ts, j, st, d);
  }

  lemma ExDecltnCompiled(ts: seq<Token>, i: nat, st: St, d: Dialect)
    requires ValidTokens(ts) && i < |ts| && Sound(st)
    ensures var r := ExDecltn(ts, i, st, d);
      r.Ok? && r.value.0.Some? ==> Compiled(r.value.0.value)
  {
    if st.tab.level == GLOBAL {
      var ty := TypeSpcf(ts[i]);
      if ty.Ok? {
        var dc := Decltr(ts, i + 1, St(AtFileScope(st.tab), 0), ty.value, true, None, d);
        if dc.Ok? && Equal(ts[dc.value.1.pos], "{") {
          var c := dc.value.1;
          FuncDefnCompiled(ts, c.pos, c.st, c.id, dc.value.0, c.params, d);
        }
      }
    }
  }

  predicate AllCompiled(fs: seq<FuncDef>) {
    forall k :: 0 <= k < |fs| ==> Compiled(fs[k])
  }

  lemma AllCompiledAppend(f: Option<FuncDef>, fs: seq<FuncDef>)
    requires (f.Some? ==> Compiled(f.value)) && AllCompiled(fs)
    ensures AllCompiled((if f.Some? then [f.value] else []) + fs)
  {
    var all := (if f.Some? then [f.value] else []) + fs;
    forall k | 0 <= k < |all|
      ensures Compiled(all[k])
    {
      if f.Some? && k > 0 {
        assert all[k] == fs[k - 1];
      } else if f.None? {
        assert all[k] == fs[k];
      }
    }
  }

  lemma {:induction false} DefinitionsCompiled(ts: seq<Token>, i: nat, st: St, d: Dialect)
    requires ValidTokens(ts) && i < |ts| && Sound(st)
    ensures Definitions(ts, i, st, d).Ok? ==> AllCompiled(Definitions(ts, i, st, d).value)
    decreases |ts| - i
  {
    if ts[i].kind != Eof {
      var st' := St(Reset(st.tab), st.stack);
      assert st'.tab.vars == st.tab.vars;
      assert Definitions(ts, i, st, d) == ExternalDefinition(ts, i, st', d);
      ExDecltnCompiled(ts, i, st', d);
      var e := ExDecltn(ts, i, st', d);
      if e.Ok? {
        DefinitionsCompiled(ts, e.value.1, e.value.2, d);
        var rest := Definitions(ts, e.value.1, e.value.2, d);
        if rest.Ok? {
          AllCompiledAppend(e.value.0, rest.value);
        }
      }
    }
  }

  /** Every function of a translation unit is one the code generator can
      compile. */
  lemma TrnsUnitCompiled(ts: seq<Token>, d: Dialect)
    requires ValidTokens(ts)
    ensures TrnsUnit(ts, d).Ok? ==> AllCompiled(TrnsUnit(ts, d).value.functions)
  {
    DefinitionsCompiled(ts, 0, St(Initial(), 0), d);
    var fs := Definitions(ts, 0, St(Initial(), 0), d);
    if fs.Ok? {
      var rs := Reverse(fs.value);
      forall k | 0 <= k < |rs|
        ensures Compiled(rs[k])
      {
        assert rs[k] == fs.value[|fs.value| - 1 - k];
      }
    }
  }

  /** The redefinition check of `func_defn` never reports: only parameters
      are marked defined, and no parameter has a function type. */
  lemma NoRedefinition(st: St, name: string)
    requires Sound(st)
    ensures !Redefines(st.tab, name)
  {
    var found := Find(st.tab, name, st.tab.identifiers);
    if found.Some? {
      assert st.tab.vars[found.value].defined ==> !IsFunc(st.tab.vars[found.value].ty);
    }
  }

  /** The tokens `{ }` of an empty block. */
  predicate EmptyBlockAt(ts: seq<Token>, i: nat)
    requires i + 1 < |ts|
  {
    Equal(ts[i], "{") && Equal(ts[i + 1], "}")
  }

  /** As written, an empty block `{}` among statements leaves its `}`
      unread, and that `}` ends the enclosing statement list: whatever
      follows the empty block is cut off from the enclosing block. */
  lemma EmptyBlockEndsList(ts: seq<Token>, i: nat, st: St)
    requires ValidTokens(ts) && i + 1 < |ts| && Sound(st) && EmptyBlockAt(ts, i)
    ensures StmtList(ts, i, st, AsWritten) == Ok(([Block([NullStmt])], i + 1, LeaveBlock(Enter(st))))
  {
    EqualConsumes(ts, i, "{");
    Differ(ts[i], "{", "}");
    var inner := LeaveBlock(Enter(st));
    assert BlockBody(ts, i + 1, Enter(st), AsWritten) == Ok((Block([NullStmt]), i + 1, inner));
    assert CmpStmt(ts, i, st, AsWritten) == Ok((Block([NullStmt]), i + 1, inner));
    assert ParseStmt(ts, i, st, AsWritten) == Ok((Block([NullStmt]), i + 1, inner));
    assert StmtList(ts, i + 1, inner, AsWritten) == Ok(([], i + 1, inner));
    assert [Block([NullStmt])] + [] == [Block([NullStmt])];
  }

  /** Corrected, the empty block consumes its `}` and the statement list
      goes on after it. */
  lemma EmptyBlockCorrected(ts: seq<Token>, i: nat, st: St)
    requires ValidTokens(ts) && i + 1 < |ts| && Sound(st) && EmptyBlockAt(ts, i)
    ensures i + 2 < |ts| && Sound(LeaveBlock(Enter(st)))
    ensures var rest := StmtList(ts, i + 2, LeaveBlock(Enter(st)), Corrected);
      StmtList(ts, i, st, Corrected) ==
        if rest.Ok? then Ok(([Block([NullStmt])] + rest.value.0, rest.value.1, rest.value.2))
        else Err(rest.msg)
  {
    EqualConsumes(ts, i, "{");
    EqualConsumes(ts, i + 1, "}");
    Differ(ts[i], "{", "}");
    var inner := LeaveBlock(Enter(st));
    assert BlockBody(ts, i + 1, Enter(st), Corrected) == Ok((Block([NullStmt]), i + 2, inner));
    assert CmpStmt(ts, i, st, Corrected) == Ok((Block([NullStmt]), i + 2, inner));
    assert ParseStmt(ts, i, st, Corrected) == Ok((Block([NullStmt]), i + 2, inner));
  }

  /** The token before position `j` is a `}`. */
  predicate ClosedAt(ts: seq<Token>, j: nat) {
    0 < j <= |ts| && StartsWith(ts[j - 1].text, "}")
  }

  /** Corrected, the contents of a block end just after a `}`. */
  lemma {:induction false} BodyClosed(ts: seq<Token>, i: nat, st: St)
    requires ValidTokens(ts) && i < |ts| && Sound(st)
    ensures var r := BlockBody(ts, i, st, Corrected);
      r.Ok? ==> i < r.value.1 && ClosedAt(ts, r.value.1)
  {
    if !Equal(ts[i], "}") {
      var body := StmtList(ts, i, st, Corrected);
      if body.Ok? && Consumes(ts[body.value.1], "}") && |body.value.0| > 0 {
        assert BlockBody(ts, i, st, Corrected).value.1 == body.value.1 + 1;
      }
    }
  }

  /** Corrected, a compound statement that starts with `{` ends just after
      a `}`: every block is closed by its own brace. */
  lemma {:induction false} BlockClosed(ts: seq<Token>, i: nat, st: St)
    requires ValidTokens(ts) && i < |ts| && Sound(st) && Consumes(ts[i], "{")
    ensures var r := CmpStmt(ts, i, st, Corrected);
      r.Ok? ==> i + 1 < r.value.1 && ClosedAt(ts, r.value.1)
  {
    var s1 := OptDecl(ts, i + 1, Enter(st), Corrected);
    if s1.Ok? {
      OpenedBlock(ts, i, st, Corrected);
      BodyClosed(ts, s1.value.1, s1.value.0);
    }
  }

  /** A compound statement that starts with `{` is its block body after
      the optional declaration, one level deeper. */
  lemma OpenedBlock(ts: seq<Token>, i: nat, st: St, d: Dialect)
    requires ValidTokens(ts) && i < |ts| && Sound(st) && Consumes(ts[i], "{")
    requires OptDecl(ts, i + 1, Enter(st), d).Ok?
    ensures var s1 := OptDecl(ts, i + 1, Enter(st), d).value;
      i + 1 <= s1.1 && CmpStmt(ts, i, st, d) == BlockBody(ts, s1.1, s1.0, d)
  {
  }

  /** As written, `func_defn` consumes the body's `{` before `cmp_stmt`
      looks for it, so a body that begins with a nested block takes that
      nested block for the body itself. */
  lemma NestedBodyAsWritten(ts: seq<Token>, i: nat, st: St, id: Option<string>, fty: Type, params: Option<seq<nat>>)
    requires ValidTokens(ts) && i + 1 < |ts| && Sound(st) && Equal(ts[i], "{") && Equal(ts[i + 1], "{")
    ensures var r := FuncDefn(ts, i, st, id, fty, params, AsWritten);
      r.Ok? ==> CmpStmt(ts, i + 1, st, AsWritten).Ok? && r.value.0.code == CmpStmt(ts, i + 1, st, AsWritten).value.0
  {
    EqualConsumes(ts, i, "{");
  }

  /** Corrected, the body's `{` opens the body, and the nested block is
      the body's first statement, one level deeper. */
  lemma NestedBodyCorrected(ts: seq<Token>, i: nat, st: St, id: Option<string>, fty: Type, params: Option<seq<nat>>)
    requires ValidTokens(ts) && i + 1 < |ts| && Sound(st) && Equal(ts[i], "{") && Equal(ts[i + 1], "{")
    ensures var r := FuncDefn(ts, i, st, id, fty, params, Corrected);
      r.Ok? ==> (CmpStmt(ts, i + 1, Enter(st), Corrected).Ok? &&
                 r.value.0.code.stmts[0] == CmpStmt(ts, i + 1, Enter(st), Corrected).value.0)
  {
    EqualConsumes(ts, i, "{");
    EqualConsumes(ts, i + 1, "{");
    Differ(ts[i + 1], "{", "}");
    CorrectedBody(ts, i, st, id, fty, params);
    assert OptDecl(ts, i + 1, Enter(st), Corrected) == Ok((Enter(st), i + 1));
    OpenedBlock(ts, i, st, Corrected);
    BodyOfBlock(ts, i + 1, Enter(st), Corrected);
    FirstOfList(ts, i + 1, Enter(st), Corrected);
    BraceStmt(ts, i + 1, Enter(st), Corrected);
  }

  /** Corrected, the definition's code is the compound statement at its `{`. */
  lemma CorrectedBody(ts: seq<Token>, i: nat, st: St, id: Option<string>, fty: Type, params: Option<seq<nat>>)
    requires ValidTokens(ts) && i < |ts| && Sound(st)
    ensures var r := FuncDefn(ts, i, st, id, fty, params, Corrected);
      r.Ok? ==> CmpStmt(ts, i, st, Corrected).Ok? && r.value.0.code == CmpStmt(ts, i, st, Corrected).value.0
  {
  }

  /** A block body that is not an immediate `}` holds its statement list. */
  lemma BodyOfBlock(ts: seq<Token>, i: nat, st: St, d: Dialect)
    requires ValidTokens(ts) && i < |ts| && Sound(st) && !Equal(ts[i], "}")
    ensures BlockBody(ts, i, st, d).Ok? ==>
              StmtList(ts, i, st, d).Ok? &&
              BlockBody(ts, i, st, d).value.0 == Block(StmtList(ts, i, st, d).value.0)
  {
  }

  /** A statement list that starts with a statement holds it first. */
  lemma FirstOfList(ts: seq<Token>, i: nat, st: St, d: Dialect)
    requires ValidTokens(ts) && i < |ts| && Sound(st)
    requires ts[i].kind != Eof && !StartsWith(ts[i].text, "}") && ts[i].kind != TypeName
    ensures StmtList(ts, i, st, d).Ok? ==>
              ParseStmt(ts, i, st, d).Ok? &&
              |StmtList(ts, i, st, d).value.0| > 0 &&
              StmtList(ts, i, st, d).value.0[0] == ParseStmt(ts, i, st, d).value.0
  {
  }

  /** A statement at `{` is a compound statement. */
  lemma BraceStmt(ts: seq<Token>, i: nat, st: St, d: Dialect)
    requires ValidTokens(ts) && i < |ts| && Sound(st) && Equal(ts[i], "{")
    ensures ParseStmt(ts, i, st, d) == CmpStmt(ts, i, st, d)
  {
  }

  /** As written, a declaration `int (*f)();` is rejected at file level
      and inside a block alike. */
  lemma FunctionPointerRejected(ts: seq<Token>, i: nat, st: St)
    requires ValidTokens(ts) && i + 7 < |ts| && Sound(st) && FunctionPointerAt(ts, i + 1)
    ensures ExDecltn(ts, i, st, AsWritten).Err?
  {
    EqualConsumes(ts, i + 5, "(");
    Differ(ts[i + 5], "(", ",");
    Differ(ts[i + 5], "(", ";");
    Differ(ts[i + 5], "(", "{");
    var ty := TypeSpcf(ts[i]);
    if ty.Ok? {
      if st.tab.level == GLOBAL {
        FunctionPointerAsWritten(ts, i + 1, St(AtFileScope(st.tab), 0), ty.value, true, None);
        var dc := Decltr(ts, i + 1, St(AtFileScope(st.tab), 0), ty.value, true, None, AsWritten).value;
        Unterminated(ts, i + 5, dc.1.st, dc.1.id, dc.0);
      } else {
        FunctionPointerAsWritten(ts, i + 1, st, ty.value, false, None);
        var dc := Decltr(ts, i + 1, st, ty.value, false, None, AsWritten).value;
        Unterminated(ts, i + 5, dc.1.st, dc.1.id, dc.0);
      }
    }
  }
}
