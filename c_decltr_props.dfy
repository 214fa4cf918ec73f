/// Properties of the declaration grammar: declarators nest the way C's do,
/// a parenthesised declarator loses its suffixes as written, and every `,`
/// of a declaration re-declares its one name.

module CDecltrProps {
  import opened Util
  import opened Types
  import opened Sym
  import opened CLex
  import opened CTokens
  import opened CDecltr

  /** A token whose text begins with one symbol is neither `equal` to nor
      consumed as another. */
  lemma Differ(t: Token, a: string, b: string)
    requires StartsWith(t.text, a) && |a| > 0 && |b| > 0 && a[0] != b[0]
    ensures !Equal(t, b) && !Consumes(t, b)
  {
    assert t.text[0] == a[0];
  }

  /** `x[n][m]` declares an array of `n` arrays of `m` elements. */
  lemma ArrayOfArrays(ts: seq<Token>, i: nat, st: St, base: Type, d: Dialect)
    requires ValidTokens(ts) && i + 7 < |ts| && Sound(st)
    requires ts[i].kind == Ident
    requires Equal(ts[i + 1], "[") && ts[i + 2].kind == Number && Consumes(ts[i + 3], "]")
    requires Equal(ts[i + 4], "[") && ts[i + 5].kind == Number && Consumes(ts[i + 6], "]")
    requires !Equal(ts[i + 7], "(") && !Equal(ts[i + 7], "[")
    ensures ts[i + 2].val >= 0 && ts[i + 5].val >= 0
    ensures var r := Decltr(ts, i, st, base, false, None, d);
      r.Ok? && r.value.0 == Array(Array(base, ts[i + 5].val), ts[i + 2].val)
      && r.value.1.id == Some(ts[i].text) && r.value.1.pos == i + 7
  {
    var n: nat := ts[i + 2].val;
    var m: nat := ts[i + 5].val;
    var chain := [ArrayLayer(m), ArrayLayer(n)];
    Differ(ts[i + 1], "[", "(");
    Differ(ts[i + 4], "[", "(");
    var id := Some(ts[i].text);
    assert [ArrayLayer(ts[i + 5].val)] + [ArrayLayer(n)] == chain;
    assert [ArrayLayer(ts[i + 2].val)] + [] == [ArrayLayer(n)];
    assert Suffixes(ts, i + 7, st, false, None, chain, id, d) == Ok(Dcl(chain, id, None, i + 7, st));
    assert Suffixes(ts, i + 4, st, false, None, [ArrayLayer(n)], id, d)
        == Suffixes(ts, i + 7, st, false, None, chain, id, d);
    assert Suffixes(ts, i + 1, st, false, None, [], id, d)
        == Suffixes(ts, i + 4, st, false, None, [ArrayLayer(n)], id, d);
    assert Decltr1(ts, i, st, false, None, d) == Ok(Dcl(chain, id, None, i + 7, st));
    assert Wrap(chain[1..], Array(base, m)) == Wrap([], Array(Array(base, m), n));
  }

  /** `*x[n]` declares an array of `n` pointers: the suffix binds tighter
      than the `*`. */
  lemma ArrayOfPointers(ts: seq<Token>, i: nat, st: St, base: Type, d: Dialect)
    requires ValidTokens(ts) && i + 5 < |ts| && Sound(st)
    requires Equal(ts[i], "*") && ts[i + 1].kind == Ident
    requires Equal(ts[i + 2], "[") && ts[i + 3].kind == Number && Consumes(ts[i + 4], "]")
    requires !Equal(ts[i + 5], "(") && !Equal(ts[i + 5], "[")
    ensures ts[i + 3].val >= 0
    ensures var r := Decltr(ts, i, st, base, false, None, d);
      r.Ok? && r.value.0 == Array(PtrTo(base), ts[i + 3].val)
      && r.value.1.id == Some(ts[i + 1].text) && r.value.1.pos == i + 5
  {
    EqualConsumes(ts, i, "*");
    Differ(ts[i], "*", "(");
    Differ(ts[i + 2], "[", "(");
    var n: nat := ts[i + 3].val;
    var id := Some(ts[i + 1].text);
    assert [ArrayLayer(ts[i + 3].val)] + [] == [ArrayLayer(n)];
    assert [PtrLayer] + [ArrayLayer(n)] == [PtrLayer, ArrayLayer(n)];
    assert Suffixes(ts, i + 5, st, false, None, [ArrayLayer(n)], id, d) == Ok(Dcl([ArrayLayer(n)], id, None, i + 5, st));
    assert Suffixes(ts, i + 2, st, false, None, [], id, d)
        == Suffixes(ts, i + 5, st, false, None, [ArrayLayer(n)], id, d);
    assert Decltr1(ts, i + 1, st, false, None, d) == Ok(Dcl([ArrayLayer(n)], id, None, i + 5, st));
    assert Suffixes(ts, i + 5, st, false, None, [PtrLayer, ArrayLayer(n)], id, d)
        == Ok(Dcl([PtrLayer, ArrayLayer(n)], id, None, i + 5, st));
    assert Decltr1(ts, i, st, false, None, d) == Ok(Dcl([PtrLayer, ArrayLayer(n)], id, None, i + 5, st));
    assert Wrap([PtrLayer, ArrayLayer(n)][1..], PtrTo(base)) == Wrap([], Array(PtrTo(base), n));
  }

  /** The tokens `( * name ) ( )` of a declarator for a pointer to a
      function, followed by a token that is no suffix. */
  predicate FunctionPointerAt(ts: seq<Token>, i: nat)
    requires i + 6 < |ts|
  {
    && Equal(ts[i], "(") && Equal(ts[i + 1], "*") && ts[i + 2].kind == Ident && Equal(ts[i + 3], ")")
    && Equal(ts[i + 4], "(") && Equal(ts[i + 5], ")")
    && !Equal(ts[i + 6], "(") && !Equal(ts[i + 6], "[")
  }

  /** The inner declarator `* name` of a function pointer, which stops at
      the `)`. */
  lemma PointerInside(ts: seq<Token>, i: nat, st: St, rec: bool, params: Option<seq<nat>>, d: Dialect)
    requires ValidTokens(ts) && i + 6 < |ts| && Sound(st) && FunctionPointerAt(ts, i)
    ensures Decltr1(ts, i + 1, st, rec, params, d) == Ok(Dcl([PtrLayer], Some(ts[i + 2].text), params, i + 3, st))
  {
    EqualConsumes(ts, i + 1, "*");
    Differ(ts[i + 1], "*", "(");
    Differ(ts[i + 3], ")", "(");
    Differ(ts[i + 3], ")", "[");
    var id := Some(ts[i + 2].text);
    assert Suffixes(ts, i + 3, st, rec, params, [], id, d) == Ok(Dcl([], id, params, i + 3, st));
    assert Decltr1(ts, i + 2, st, rec, params, d) == Ok(Dcl([], id, params, i + 3, st));
    assert [PtrLayer] + [] == [PtrLayer];
    assert Suffixes(ts, i + 3, st, rec, params, [PtrLayer], id, d) == Ok(Dcl([PtrLayer], id, params, i + 3, st));
  }

  /** As written, `(*f)()` stops at the parenthesis that closes the inner
      declarator: the declarator is a plain pointer and the `(` that
      should make it a pointer to a function is left unparsed. */
  lemma FunctionPointerAsWritten(ts: seq<Token>, i: nat, st: St, base: Type, rec: bool, params: Option<seq<nat>>)
    requires ValidTokens(ts) && i + 6 < |ts| && Sound(st) && FunctionPointerAt(ts, i)
    ensures var r := Decltr(ts, i, st, base, rec, params, AsWritten);
      r.Ok? && r.value.0 == PtrTo(base) && r.value.1.pos == i + 4
  {
    EqualConsumes(ts, i, "(");
    EqualConsumes(ts, i + 3, ")");
    PointerInside(ts, i, st, rec, params, AsWritten);
    var dc := Dcl([PtrLayer], Some(ts[i + 2].text), params, i + 4, st);
    assert Nested(ts, i + 1, st, rec, params, AsWritten) == Ok(dc);
    assert Decltr1(ts, i, st, rec, params, AsWritten) == Ok(dc);
    assert Wrap([PtrLayer][1..], PtrTo(base)) == PtrTo(base);
  }

  /** Corrected, the suffix after the parenthesised declarator applies to
      it: `(*f)()` declares a pointer to a function returning the base
      type, and the whole declarator is consumed. */
  lemma FunctionPointerCorrected(ts: seq<Token>, i: nat, st: St, base: Type, rec: bool, params: Option<seq<nat>>)
    requires ValidTokens(ts) && i + 6 < |ts| && Sound(st) && FunctionPointerAt(ts, i)
    ensures var r := Decltr(ts, i, st, base, rec, params, Corrected);
      r.Ok? && r.value.0 == PtrTo(Function(base)) && r.value.1.pos == i + 6 && r.value.1.id == Some(ts[i + 2].text)
  {
    EqualConsumes(ts, i, "(");
    EqualConsumes(ts, i + 3, ")");
    EqualConsumes(ts, i + 5, ")");
    Differ(ts[i + 5], ")", "(");
    PointerInside(ts, i, st, rec, params, Corrected);
    var id := Some(ts[i + 2].text);
    var t1 := Entered(st.tab);
    var t2 := if t1.level > PARAM then Entered(t1) else t1;
    assert ts[i + 5].kind != TypeName;
    assert Parameters(ts, i + 5, St(t2, st.stack), Corrected) == Ok((None, i + 6, St(t2, st.stack)));
    var chain := [FuncLayer, PtrLayer];
    assert [FuncLayer] + [PtrLayer] == chain;
    assert Suffixes(ts, i + 6, St(t2, st.stack), rec, params, chain, id, Corrected)
        == Ok(Dcl(chain, id, params, i + 6, St(t2, st.stack)));
    assert Suffixes(ts, i + 4, st, rec, params, [PtrLayer], id, Corrected)
        == Ok(Dcl(chain, id, params, i + 6, St(t2, st.stack)));
    assert Decltr1(ts, i, st, rec, params, Corrected) == Ok(Dcl(chain, id, params, i + 6, St(t2, st.stack)));
  }

  /** Where a declaration enters a name it can find it again: below file
      level in the innermost scope, at file level in the file scope when
      that is the innermost one. */
  predicate Revisible(t: Table) {
    WellFormed(t) &&
    (t.level != GLOBAL || (t.identifiers == t.globals && t.frames[t.globals].level == GLOBAL))
  }

  /** Declaring the same name twice at one level is a redeclaration
      error. */
  lemma DecltnTwice(st: St, name: string, ty: Type)
    requires Sound(st) && Revisible(st.tab) && Decltn(st, Some(name), ty).Ok?
    ensures Decltn(Decltn(st, Some(name), ty).value.0, Some(name), ty).Err?
  {
    var t := st.tab;
    var (st1, p) := Decltn(st, Some(name), ty).value;
    var found := Find(t, name, t.identifiers);
    if found.None? && t.level == GLOBAL {
      var (t1, p1) := Installed(t, name, true, GLOBAL, ty);
      InstallFound(t, name, true, GLOBAL, ty);
      assert Target(t, t.globals, GLOBAL) == (t, t.globals);
      assert t1.globals == t.globals;
      assert st1.tab == t1;
    } else {
      var (t1, p1) := Installed(t, name, false, t.level, ty);
      InstallFound(t, name, false, t.level, ty);
      assert st1 == SetOffset(St(t1, st.stack), p1);
      FindSameNames(t1, st1.tab, name, t1.identifiers);
    }
    assert Find(st1.tab, name, st1.tab.identifiers) == Some(p);
  }

  /** `int a, b;` as written declares `a` twice: the declarator loop
      re-declares the first declarator's name for every `,`, which is a
      redeclaration error. */
  lemma CommaRedeclares(ts: seq<Token>, i: nat, st: St, name: string, ty: Type)
    requires ValidTokens(ts) && i < |ts| && Sound(st) && Revisible(st.tab)
    requires Consumes(ts[i], ",")
    ensures Declarations(ts, i, st, Some(name), ty).Err?
  {
    var dn := Decltn(st, Some(name), ty);
    if dn.Ok? {
      DecltnTwice(st, name, ty);
      assert NextDeclarator(ts, i, dn.value.0, Some(name), ty) == Declarations(ts, i + 1, dn.value.0, Some(name), ty);
    }
  }

  /** A declarator loop that meets neither `,` nor `;` after its first
      declarator is an error. */
  lemma Unterminated(ts: seq<Token>, i: nat, st: St, id: Option<string>, ty: Type)
    requires ValidTokens(ts) && i < |ts| && Sound(st)
    requires !Consumes(ts[i], ",") && !Consumes(ts[i], ";")
    ensures Declarations(ts, i, st, id, ty).Err?
  {
    var dn := Decltn(st, id, ty);
    if dn.Ok? {
      assert NextDeclarator(ts, i, dn.value.0, id, ty).Err?;
    }
  }
}
