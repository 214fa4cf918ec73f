/// What the statement-level parser promises about the trees it builds:
/// expressions are built only from numbers, variables, assignments and
/// binary operators; assignment nests to the right; each `for` clause and the
/// `else` branch may be left out; and only `return` and expression
/// statements take a trailing `;`.

module StmtParseProps {
  import opened Util
  import opened BinOps
  import opened StmtLex
  import opened StmtParse

  /** The trees the expression grammar builds. The target of an assignment
      is any expression here: `1 = 2` parses, and it is the code generator
      that rejects it. */
  predicate Expression(n: Node) {
    match n
    case Num(_) => true
    case LVar(_) => true
    case Assign(l, r) => Expression(l) && Expression(r)
    case Bin(_, l, r) => Expression(l) && Expression(r)
    case _ => false
  }

  predicate Shaped(r: Parsed) {
    r.Ok? ==> Expression(r.value.0)
  }

  /** Every tree the expression parser returns is an expression. */
  lemma {:induction false} ExprShaped(ts: seq<Token>, i: nat, l: Locals)
    requires ValidTokens(ts) && i < |ts|
    ensures Shaped(ParseExpr(ts, i, l))
    decreases |ts| - i, 8
  {
    AssignShaped(ts, i, l);
  }

  lemma {:induction false} AssignShaped(ts: seq<Token>, i: nat, l: Locals)
    requires ValidTokens(ts) && i < |ts|
    ensures Shaped(ParseAssign(ts, i, l))
    decreases |ts| - i, 7
  {
    EqualityShaped(ts, i, l);
    var left := ParseEquality(ts, i, l);
    if left.Ok? && Matches(ts[left.value.1], "=") {
      AssignShaped(ts, left.value.1 + 1, l);
    }
  }

  lemma {:induction false} EqualityShaped(ts: seq<Token>, i: nat, l: Locals)
    requires ValidTokens(ts) && i < |ts|
    ensures Shaped(ParseEquality(ts, i, l))
    decreases |ts| - i, 6
  {
    RelationalShaped(ts, i, l);
    var left := ParseRelational(ts, i, l);
    if left.Ok? {
      EqualityTailShaped(ts, left.value.1, l, left.value.0);
    }
  }

  lemma {:induction false} EqualityTailShaped(ts: seq<Token>, i: nat, l: Locals, acc: Node)
    requires ValidTokens(ts) && i < |ts| && Expression(acc)
    ensures Shaped(EqualityTail(ts, i, l, acc))
    decreases |ts| - i, 6
  {
    if Matches(ts[i], "==") || Matches(ts[i], "!=") {
      RelationalShaped(ts, i + 1, l);
      var right := ParseRelational(ts, i + 1, l);
      if right.Ok? {
        EqualityTailShaped(ts, right.value.1, l, Bin(if Matches(ts[i], "==") then Eq else Ne, acc, right.value.0));
      }
    }
  }

  lemma {:induction false} RelationalShaped(ts: seq<Token>, i: nat, l: Locals)
    requires ValidTokens(ts) && i < |ts|
    ensures Shaped(ParseRelational(ts, i, l))
    decreases |ts| - i, 5
  {
    AddShaped(ts, i, l);
    var left := ParseAdd(ts, i, l);
    if left.Ok? {
      RelationalTailShaped(ts, left.value.1, l, left.value.0);
    }
  }

  lemma {:induction false} RelationalTailShaped(ts: seq<Token>, i: nat, l: Locals, acc: Node)
    requires ValidTokens(ts) && i < |ts| && Expression(acc)
    ensures Shaped(RelationalTail(ts, i, l, acc))
    decreases |ts| - i, 5
  {
    match RelationalOp(ts[i])
    case None =>
    case Some(op) =>
      AddShaped(ts, i + 1, l);
      var operand := ParseAdd(ts, i + 1, l);
      if operand.Ok? {
        RelationalTailShaped(ts, operand.value.1, l, Combine(op, acc, operand.value.0));
      }
  }

  lemma {:induction false} AddShaped(ts: seq<Token>, i: nat, l: Locals)
    requires ValidTokens(ts) && i < |ts|
    ensures Shaped(ParseAdd(ts, i, l))
    decreases |ts| - i, 4
  {
    MulShaped(ts, i, l);
    var left := ParseMul(ts, i, l);
    if left.Ok? {
      AddTailShaped(ts, left.value.1, l, left.value.0);
    }
  }

  lemma {:induction false} AddTailShaped(ts: seq<Token>, i: nat, l: Locals, acc: Node)
    requires ValidTokens(ts) && i < |ts| && Expression(acc)
    ensures Shaped(AddTail(ts, i, l, acc))
    decreases |ts| - i, 4
  {
    if Matches(ts[i], "+") || Matches(ts[i], "-") {
      MulShaped(ts, i + 1, l);
      var right := ParseMul(ts, i + 1, l);
      if right.Ok? {
        AddTailShaped(ts, right.value.1, l, Bin(if Matches(ts[i], "+") then Add else Sub, acc, right.value.0));
      }
    }
  }

  lemma {:induction false} MulShaped(ts: seq<Token>, i: nat, l: Locals)
    requires ValidTokens(ts) && i < |ts|
    ensures Shaped(ParseMul(ts, i, l))
    decreases |ts| - i, 3
  {
    UnaryShaped(ts, i, l);
    var left := ParseUnary(ts, i, l);
    if left.Ok? {
      MulTailShaped(ts, left.value.1, l, left.value.0);
    }
  }

  lemma {:induction false} MulTailShaped(ts: seq<Token>, i: nat, l: Locals, acc: Node)
    requires ValidTokens(ts) && i < |ts| && Expression(acc)
    ensures Shaped(MulTail(ts, i, l, acc))
    decreases |ts| - i, 3
  {
    if Matches(ts[i], "*") || Matches(ts[i], "/") {
      UnaryShaped(ts, i + 1, l);
      var right := ParseUnary(ts, i + 1, l);
      if right.Ok? {
        MulTailShaped(ts, right.value.1, l, Bin(if Matches(ts[i], "*") then Mul else Div, acc, right.value.0));
      }
    }
  }

  lemma {:induction false} UnaryShaped(ts: seq<Token>, i: nat, l: Locals)
    requires ValidTokens(ts) && i < |ts|
    ensures Shaped(ParseUnary(ts, i, l))
    decreases |ts| - i, 2
  {
    if Matches(ts[i], "+") || Matches(ts[i], "-") {
      NotLast(ts, i);
      PrimaryShaped(ts, i + 1, l);
    } else {
      PrimaryShaped(ts, i, l);
    }
  }

  lemma {:induction false} PrimaryShaped(ts: seq<Token>, i: nat, l: Locals)
    requires ValidTokens(ts) && i < |ts|
    ensures Shaped(ParsePrimary(ts, i, l))
    decreases |ts| - i, 1
  {
    if Matches(ts[i], "(") {
      NotLast(ts, i);
      ExprShaped(ts, i + 1, l);
    }
  }

  /** An identifier followed by a lone `=`: the right side is a whole
      assignment again, so `a = b = c` is `a = (b = c)`. */
  lemma AssignRight(ts: seq<Token>, i: nat, l: Locals)
    requires ValidTokens(ts) && i + 1 < |ts|
    requires ts[i].kind == Ident && Matches(ts[i + 1], "=") && !Matches(ts[i + 1], "==")
    ensures ParseAssign(ts, i, l) ==
      match ParseAssign(ts, i + 2, l)
      case Ok(right) => Ok((Assign(LVar(Offset(l, Name(ts[i]))), right.0), right.1))
      case Err(m) => Err(m)
  {
    var x := LVar(Offset(l, Name(ts[i])));
    NotLast(ts, i + 1);
    assert ParsePrimary(ts, i, l) == Ok((x, i + 1));
    assert ParseUnary(ts, i, l) == Ok((x, i + 1));
    assert ParseMul(ts, i, l) == Ok((x, i + 1));
    assert ParseAdd(ts, i, l) == Ok((x, i + 1));
    assert RelationalOp(ts[i + 1]) == None by {
      if Matches(ts[i + 1], ">=") || Matches(ts[i + 1], "<=") || Matches(ts[i + 1], ">") || Matches(ts[i + 1], "<") {
        StartsWithHead(ts[i + 1].str);
      }
    }
    assert ParseRelational(ts, i, l) == Ok((x, i + 1));
    assert !Matches(ts[i + 1], "!=") by { StartsWithHead(ts[i + 1].str); }
    assert ParseEquality(ts, i, l) == Ok((x, i + 1));
  }

  /** A `for` clause is left out exactly when its closing symbol comes
      first; a clause that is there must be followed by that symbol. */
  lemma ClauseOmitted(ts: seq<Token>, i: nat, l: Locals, close: string)
    requires ValidTokens(ts) && i < |ts|
    ensures Clause(ts, i, l, close).Ok? && Clause(ts, i, l, close).value.0.None? <==> Matches(ts[i], close)
    ensures var r := Clause(ts, i, l, close);
      r.Ok? && r.value.0.Some? ==> Matches(ts[r.value.1 - 1], close) && ParseExpr(ts, i, l).Ok?
  {
  }

  /** `else` is optional: an `if` has an `else` branch exactly when the
      token after its body is `else`. */
  lemma ElseOptional(ts: seq<Token>, i: nat, l: Locals)
    requires ValidTokens(ts) && i < |ts|
    ensures var r := ParseIf(ts, i, l);
      r.Ok? ==> (r.value.0.IfStmt? &&
        var c := ParseExpr(ts, i + 1, l).value;
        var body := ParseStmt(ts, c.1 + 1, l).value;
        (r.value.0.els.Some? <==> ts[body.1].kind == Else))
  {
  }

  /** Only `return` and expression statements end with a `;` of their own;
      `if` and `for` end with their last inner statement. */
  lemma Semicolons(ts: seq<Token>, i: nat, l: Locals)
    requires ValidTokens(ts) && i < |ts|
    ensures var r := ParseStmt(ts, i, l);
      r.Ok? && ts[i].kind != If && ts[i].kind != For ==> Matches(ts[r.value.1 - 1], ";")
    ensures var r := ParseStmt(ts, i, l);
      r.Ok? && ts[i].kind == If ==> r == ParseIf(ts, i + 1, l)
    ensures var r := ParseStmt(ts, i, l);
      r.Ok? && ts[i].kind == For ==> r == ParseFor(ts, i + 1, l)
  {
  }

  function SymTok(op: string): Token { Token(Reserved, 0, op, |op|) }

  /** A variable followed by `;` is the whole expression. */
  lemma VarThenSemicolon(ts: seq<Token>, i: nat, l: Locals)
    requires ValidTokens(ts) && i + 1 < |ts| && ts[i].kind == Ident && ts[i + 1] == SymTok(";")
    ensures ParseAssign(ts, i, l) == Ok((LVar(Offset(l, Name(ts[i]))), i + 1))
  {
    var x := LVar(Offset(l, Name(ts[i])));
    StartsWithHead(";");
    assert ParsePrimary(ts, i, l) == Ok((x, i + 1));
    assert ParseUnary(ts, i, l) == Ok((x, i + 1));
    assert MulTail(ts, i + 1, l, x) == Ok((x, i + 1));
    assert ParseMul(ts, i, l) == Ok((x, i + 1));
    assert AddTail(ts, i + 1, l, x) == Ok((x, i + 1));
    assert ParseAdd(ts, i, l) == Ok((x, i + 1));
    assert RelationalOp(ts[i + 1]) == None;
    assert ParseRelational(ts, i, l) == Ok((x, i + 1));
    assert EqualityTail(ts, i + 1, l, x) == Ok((x, i + 1));
    assert ParseEquality(ts, i, l) == Ok((x, i + 1));
  }

  /** `a = b = c;` parses as `a = (b = c)`. */
  lemma ChainedAssignment(ts: seq<Token>, i: nat, l: Locals)
    requires ValidTokens(ts) && i + 5 < |ts|
    requires ts[i].kind == Ident && ts[i + 2].kind == Ident && ts[i + 4].kind == Ident
    requires Matches(ts[i + 1], "=") && !Matches(ts[i + 1], "==")
    requires Matches(ts[i + 3], "=") && !Matches(ts[i + 3], "==")
    requires ts[i + 5] == SymTok(";")
    ensures var a, b, c := LVar(Offset(l, Name(ts[i]))), LVar(Offset(l, Name(ts[i + 2]))), LVar(Offset(l, Name(ts[i + 4])));
      ParseExpr(ts, i, l) == Ok((Assign(a, Assign(b, c)), i + 5))
  {
    VarThenSemicolon(ts, i + 4, l);
    AssignRight(ts, i + 2, l);
    AssignRight(ts, i, l);
  }
}
