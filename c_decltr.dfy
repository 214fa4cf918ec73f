/// Declarations of the typed front end (decl.c): the type specifier, the
/// declarator parsed inside out into a chain of type nodes and then applied
/// to the base type, parameter lists with their scope, and the entry of
/// parameters and variables into the symbol table with their stack offsets.
/// The parser's state is the symbol table of sym.c plus decl.c's
/// `stack_size`; every function takes it and returns the new one.

module CDecltr {
  import opened Util
  import opened Types
  import opened Sym
  import opened CLex
  import opened CTokens

  /** The declaration state: the symbol table and the running stack size of
      the function being compiled. */
  datatype St = St(tab: Table, stack: nat)

  /** A node of the chain `decltr1` builds with `tnode`. */
  datatype Layer = PtrLayer | FuncLayer | ArrayLayer(n: nat)

  /** What `decltr1` leaves: the chain, outermost node first; the declared
      name if any; the parameter vector it recorded (`NULL` is `None`); the
      cursor; the state. */
  datatype Dcl = Dcl(chain: seq<Layer>, id: Option<string>, params: Option<seq<nat>>, pos: nat, st: St)

  const NoTypeSpecifier := "missing type specifier"
  const MissingParamType := "missing parameter type"
  const NoIdentifier := "missing identifier"
  const Redeclaration := "redeclaration error"

  function Duplicate(name: string): string {
    "duplicate declaration for `" + name + "' previously declared"
  }

  /** No entry marked defined has a function type: only parameters are
      marked defined, and a parameter of function type is entered as a
      pointer. */
  predicate DefinedNotFunc(t: Table) {
    forall q :: 0 <= q < |t.vars| && t.vars[q].defined ==> !IsFunc(t.vars[q].ty)
  }

  /** A state the parser can be in. */
  predicate Sound(st: St) {
    WellFormed(st.tab) && DefinedNotFunc(st.tab)
  }

  /** Parsing only ever raises the scope level and the stack size. */
  predicate Grows(a: St, b: St) {
    a.tab.level <= b.tab.level && a.stack <= b.stack && |a.tab.vars| <= |b.tab.vars|
  }

  /** `roundup(x, 8)`, a helper that is not part of this model, taken to be
      the least multiple of 8 not below `x`. */
  function RoundUp(x: nat): (r: nat)
    ensures r % 8 == 0 && x <= r < x + 8
  {
    (x + 7) / 8 * 8
  }

  /** `set_offset(p)`: the stack grows by the entry's size rounded up to 8
      and the entry's offset is the new stack size, so its slot lies above
      every slot handed out before. */
  function SetOffset(st: St, p: nat): (r: St)
    requires Sound(st) && p < |st.tab.vars|
    ensures Sound(r) && r.tab.level == st.tab.level
    ensures r.stack >= st.stack + StoredSize(st.tab.vars[p].ty) && r.stack < st.stack + StoredSize(st.tab.vars[p].ty) + 8
    ensures r.stack % 8 == st.stack % 8
    ensures |r.tab.vars| == |st.tab.vars| && r.tab.vars[p] == st.tab.vars[p].(offset := r.stack)
    ensures forall q :: 0 <= q < |st.tab.vars| && q != p ==> r.tab.vars[q] == st.tab.vars[q]
    ensures r.tab.frames == st.tab.frames
    ensures r.tab.globals == st.tab.globals && r.tab.identifiers == st.tab.identifiers
  {
    var stack := st.stack + RoundUp(StoredSize(st.tab.vars[p].ty));
    St(WithOffset(st.tab, p, stack), stack)
  }

  lemma InstalledKeeps(t: Table, name: string, toGlobals: bool, level: int, ty: Type)
    requires WellFormed(t) && DefinedNotFunc(t)
    ensures DefinedNotFunc(Installed(t, name, toGlobals, level, ty).0)
  {
    var r := Installed(t, name, toGlobals, level, ty).0;
    forall q | 0 <= q < |r.vars| && r.vars[q].defined
      ensures !IsFunc(r.vars[q].ty)
    {
      assert q < |t.vars|;
      assert r.vars[q] == t.vars[q];
    }
  }

  /** `type_spcf`: `char` or `int`, by the token's whole text. */
  function TypeSpcf(t: Token): (r: Result<Type>)
    ensures r.Ok? <==> Equal(t, "char") || Equal(t, "int")
    ensures r.Ok? ==> (r.value == Char <==> Equal(t, "char")) && (r.value == Int <==> !Equal(t, "char"))
  {
    if Equal(t, "char") then Ok(Char)
    else if Equal(t, "int") then Ok(Int)
    else Err(NoTypeSpecifier)
  }

  /** The type one node of the chain makes of the type inside it. */
  function Apply(l: Layer, base: Type): (r: Type)
    ensures l.PtrLayer? ==> r == PtrTo(base)
    ensures l.FuncLayer? ==> r.Function? && r.ret == base
    ensures l.ArrayLayer? ==> r.Array? && r.elem == base && r.count == l.n
  {
    match l
    case PtrLayer => PtrTo(base)
    case FuncLayer => Function(base)
    case ArrayLayer(n) => Array(base, n)
  }

  /** The loop of `decltr`: the chain is walked from its outermost node
      inward, each node wrapping the type built so far. */
  function Wrap(chain: seq<Layer>, base: Type): Type
    decreases |chain|
  {
    if |chain| == 0 then base else Wrap(chain[1..], Apply(chain[0], base))
  }

  /** `decltr`: `decltr1`'s chain applied to the base type. */
  function Decltr(ts: seq<Token>, i: nat, st: St, base: Type, rec: bool, params: Option<seq<nat>>, d: Dialect)
    : (r: Result<(Type, Dcl)>)
    requires ValidTokens(ts) && i < |ts| && Sound(st)
    ensures r.Ok? ==> r.value.0 == Wrap(r.value.1.chain, base)
    ensures r.Ok? ==> i <= r.value.1.pos < |ts| && Sound(r.value.1.st) && Grows(st, r.value.1.st)
    decreases |ts| - i, 3
  {
    var dc :- Decltr1(ts, i, st, rec, params, d);
    Ok((Wrap(dc.chain, base), dc))
  }

  /** `decltr1`: a parenthesised declarator, a pointer declarator, or an
      identifier followed by the suffix loop; anything else is an abstract
      declarator that consumes nothing. */
  function Decltr1(ts: seq<Token>, i: nat, st: St, rec: bool, params: Option<seq<nat>>, d: Dialect)
    : (r: Result<Dcl>)
    requires ValidTokens(ts) && i < |ts| && Sound(st)
    ensures r.Ok? ==> i <= r.value.pos < |ts| && Sound(r.value.st) && Grows(st, r.value.st)
    decreases |ts| - i, 1
  {
    if Consumes(ts[i], "(") then Nested(ts, i + 1, st, rec, params, d)
    else if Consumes(ts[i], "*") then Pointer(ts, i + 1, st, rec, params, d)
    else if ts[i].kind == Ident then Suffixes(ts, i + 1, st, rec, params, [], Some(ts[i].text), d)
    else Ok(Dcl([], None, params, i, st))
  }

  /** The declarator after a `(`, which must be closed by `)`; as written
      `decltr1` returns at that parenthesis, and otherwise the suffix loop
      follows it. */
  function Nested(ts: seq<Token>, i: nat, st: St, rec: bool, params: Option<seq<nat>>, d: Dialect)
    : (r: Result<Dcl>)
    requires ValidTokens(ts) && i < |ts| && Sound(st)
    ensures r.Ok? ==> i < r.value.pos < |ts| && Sound(r.value.st) && Grows(st, r.value.st)
    decreases |ts| - i, 2
  {
    var inner :- Decltr1(ts, i, st, rec, params, d);
    if !Consumes(ts[inner.pos], ")") then Err(ExpectMsg(")"))
    else if d == AsWritten then Ok(inner.(pos := inner.pos + 1))
    else Suffixes(ts, inner.pos + 1, inner.st, rec, inner.params, inner.chain, inner.id, d)
  }

  /** The declarator after a `*`: a pointer node outside its chain, then
      the suffix loop. */
  function Pointer(ts: seq<Token>, i: nat, st: St, rec: bool, params: Option<seq<nat>>, d: Dialect)
    : (r: Result<Dcl>)
    requires ValidTokens(ts) && i < |ts| && Sound(st)
    ensures r.Ok? ==> i <= r.value.pos < |ts| && Sound(r.value.st) && Grows(st, r.value.st)
    decreases |ts| - i, 2
  {
    var inner :- Decltr1(ts, i, st, rec, params, d);
    Suffixes(ts, inner.pos, inner.st, rec, inner.params, [PtrLayer] + inner.chain, inner.id, d)
  }

  /** The suffix loop of `decltr1`: each suffix adds its node to the chain,
      and the first parameter vector a `(` yields is recorded when asked
      to. */
  function Suffixes(ts: seq<Token>, i: nat, st: St, rec: bool, params: Option<seq<nat>>,
                    chain: seq<Layer>, id: Option<string>, d: Dialect): (r: Result<Dcl>)
    requires ValidTokens(ts) && i < |ts| && Sound(st)
    ensures r.Ok? ==> r.value.id == id
    ensures r.Ok? ==> i <= r.value.pos < |ts| && Sound(r.value.st) && Grows(st, r.value.st)
    decreases |ts| - i, 1
  {
    if Equal(ts[i], "(") || Equal(ts[i], "[") then
      var s :- Suffix(ts, i, st, d);
      var params' := if rec && params.None? then s.0.1 else params;
      Suffixes(ts, s.1, s.2, rec, params', [s.0.0] + chain, id, d)
    else Ok(Dcl(chain, id, params, i, st))
  }

  /** One suffix: `(` enters the parameter scope (twice when already inside
      one) and parses the parameters into a function node; `[` number `]`
      makes an array node and yields no parameter vector. */
  function Suffix(ts: seq<Token>, i: nat, st: St, d: Dialect): (r: Result<((Layer, Option<seq<nat>>), nat, St)>)
    requires ValidTokens(ts) && i < |ts| && Sound(st)
    requires Equal(ts[i], "(") || Equal(ts[i], "[")
    ensures r.Ok? ==> i < r.value.1 < |ts| && Sound(r.value.2) && Grows(st, r.value.2)
    ensures r.Ok? ==> (r.value.0.0.FuncLayer? <==> Equal(ts[i], "("))
    ensures r.Ok? && r.value.0.0.ArrayLayer? ==> r.value.0.1.None? && r.value.2 == st
    decreases |ts| - i, 0
  {
    if Equal(ts[i], "(") then
      var t1 := Entered(st.tab);
      var t2 := if t1.level > PARAM then Entered(t1) else t1;
      var ps :- Parameters(ts, i + 1, St(t2, st.stack), d);
      Ok(((FuncLayer, ps.0), ps.1, ps.2))
    else if ts[i + 1].kind != Number then Err(NotANumber)
    else if !Consumes(ts[i + 2], "]") then Err(ExpectMsg("]"))
    else Ok(((ArrayLayer(ts[i + 1].val), None), i + 3, st))
  }

  /** `parameters`: a list starting with a type name gives the vector of
      entered parameters; otherwise there is none. Either way `)` must
      follow. */
  function Parameters(ts: seq<Token>, i: nat, st: St, d: Dialect): (r: Result<(Option<seq<nat>>, nat, St)>)
    requires ValidTokens(ts) && i < |ts| && Sound(st)
    ensures r.Ok? ==> i < r.value.1 < |ts| && Sound(r.value.2) && Grows(st, r.value.2)
    ensures r.Ok? && r.value.0.Some? ==> forall k :: 0 <= k < |r.value.0.value| ==> r.value.0.value[k] < |r.value.2.tab.vars|
    decreases |ts| - i, 2
  {
    if ts[i].kind == TypeName then
      var ps :- ParamList(ts, i, st, [], d);
      if !Consumes(ts[ps.1], ")") then Err(ExpectMsg(")"))
      else Ok((Some(ps.0), ps.1 + 1, ps.2))
    else if !Consumes(ts[i], ")") then Err(ExpectMsg(")"))
    else Ok((None, i + 1, st))
  }

  /** The loop of `parameters`: a parameter is parsed and appended to the
      list, and the loop goes on while a `,` follows. */
  function ParamList(ts: seq<Token>, i: nat, st: St, acc: seq<nat>, d: Dialect): (r: Result<(seq<nat>, nat, St)>)
    requires ValidTokens(ts) && i < |ts| && Sound(st)
    requires forall k :: 0 <= k < |acc| ==> acc[k] < |st.tab.vars|
    ensures r.Ok? ==> i < r.value.1 < |ts| && Sound(r.value.2) && Grows(st, r.value.2)
    ensures r.Ok? ==> |r.value.0| > |acc| && r.value.0[..|acc|] == acc
    ensures r.Ok? ==> forall k :: 0 <= k < |r.value.0| ==> r.value.0[k] < |r.value.2.tab.vars|
    decreases |ts| - i, 1
  {
    var pr :- Param(ts, i, st, d);
    MoreParams(ts, pr.1, pr.2, acc + [pr.0], d)
  }

  /** The end of one pass of the loop of `parameters`: it stops unless a
      `,` follows. */
  function MoreParams(ts: seq<Token>, i: nat, st: St, acc: seq<nat>, d: Dialect): (r: Result<(seq<nat>, nat, St)>)
    requires ValidTokens(ts) && i < |ts| && Sound(st)
    requires forall k :: 0 <= k < |acc| ==> acc[k] < |st.tab.vars|
    ensures r.Ok? ==> i <= r.value.1 < |ts| && Sound(r.value.2) && Grows(st, r.value.2)
    ensures r.Ok? ==> |r.value.0| >= |acc| && r.value.0[..|acc|] == acc
    ensures r.Ok? ==> forall k :: 0 <= k < |r.value.0| ==> r.value.0[k] < |r.value.2.tab.vars|
    decreases |ts| - i, 0
  {
    if !Equal(ts[i], ",") then Ok((acc, i, st))
    else ParamList(ts, i + 1, st, acc, d)
  }

  /** One parameter: a type name, then its declarator and entry. */
  function Param(ts: seq<Token>, i: nat, st: St, d: Dialect): (r: Result<(nat, nat, St)>)
    requires ValidTokens(ts) && i < |ts| && Sound(st)
    ensures r.Ok? ==> i < r.value.1 < |ts| && Sound(r.value.2) && Grows(st, r.value.2)
    ensures r.Ok? ==> r.value.0 < |r.value.2.tab.vars|
    decreases |ts| - i, 0
  {
    if ts[i].kind != TypeName then Err(MissingParamType)
    else
      var spcf :- TypeSpcf(ts[i]);
      ParamDecl(ts, i + 1, st, spcf, d)
  }

  /** A parameter's declarator, entered by `dclparam`. */
  function ParamDecl(ts: seq<Token>, i: nat, st: St, spcf: Type, d: Dialect): (r: Result<(nat, nat, St)>)
    requires ValidTokens(ts) && i < |ts| && Sound(st)
    ensures r.Ok? ==> i <= r.value.1 < |ts| && Sound(r.value.2) && Grows(st, r.value.2)
    ensures r.Ok? ==> r.value.0 < |r.value.2.tab.vars|
    decreases |ts| - i, 4
  {
    var dc :- Decltr(ts, i, st, spcf, false, None, d);
    var pr :- DclParam(dc.1.st, dc.1.id, dc.0);
    Ok((pr.1, dc.1.pos, pr.0))
  }

  /** Marking a name that is no function defined keeps every defined
      name a non-function. */
  lemma DefinedKeeps(t: Table, p: nat)
    requires WellFormed(t) && DefinedNotFunc(t) && p < |t.vars| && !IsFunc(t.vars[p].ty)
    ensures DefinedNotFunc(WithDefined(t, p))
  {
    var r := WithDefined(t, p);
    forall q | 0 <= q < |r.vars| && r.vars[q].defined
      ensures !IsFunc(r.vars[q].ty)
    {
      if q != p {
        assert r.vars[q] == t.vars[q];
      }
    }
  }

  /** The type a parameter is entered with: a function becomes a pointer to
      it and an array a pointer to its element. */
  function Adjusted(ty: Type): (r: Type)
    ensures !IsFunc(r) && !IsArray(r)
    ensures ty.Array? ==> r == PtrTo(ty.elem)
    ensures ty.Function? ==> r == PtrTo(ty)
    ensures !ty.Array? && !ty.Function? ==> r == ty
  {
    if IsFunc(ty) then PtrTo(ty) else if IsArray(ty) then Atop(ty).value else ty
  }

  /** `dclparam`: a parameter needs a name not yet declared at the current
      level; it is entered at that level in the innermost scope with its
      adjusted type, given a stack offset, and marked defined. */
  function DclParam(st: St, id: Option<string>, ty: Type): (r: Result<(St, nat)>)
    requires Sound(st)
    ensures r.Ok? <==> (id.Some? &&
      (Find(st.tab, id.value, st.tab.identifiers).None? ||
       st.tab.vars[Find(st.tab, id.value, st.tab.identifiers).value].scope != st.tab.level))
    ensures r.Ok? ==> Sound(r.value.0) && Grows(st, r.value.0) && r.value.0.tab.level == st.tab.level
    ensures r.Ok? ==> r.value.1 == |st.tab.vars| && |r.value.0.tab.vars| == |st.tab.vars| + 1
    ensures r.Ok? ==> var v := r.value.0.tab.vars[r.value.1];
      v.name == id.value && v.ty == Adjusted(ty) && v.scope == st.tab.level && v.defined && v.offset == r.value.0.stack
  {
    match id
    case None => Err(NoIdentifier)
    case Some(name) =>
      var found := Find(st.tab, name, st.tab.identifiers);
      if found.Some? && st.tab.vars[found.value].scope == st.tab.level then Err(Duplicate(name))
      else
        InstalledKeeps(st.tab, name, false, st.tab.level, Adjusted(ty));
        var (t1, p) := Installed(st.tab, name, false, st.tab.level, Adjusted(ty));
        var st1 := SetOffset(St(t1, st.stack), p);
        var t2 := WithDefined(st1.tab, p);
        DefinedKeeps(st1.tab, p);
        Ok((St(t2, st1.stack), p))
  }

  /** `decltn`: a name not visible is entered in the file scope at file
      level and otherwise in the innermost scope with a stack offset; a
      name visible from an outer level is shadowed the same way; a name
      already declared at this level is an error. */
  function Decltn(st: St, id: Option<string>, ty: Type): (r: Result<(St, nat)>)
    requires Sound(st)
    ensures r.Ok? <==> (id.Some? &&
      (Find(st.tab, id.value, st.tab.identifiers).None? ||
       st.tab.vars[Find(st.tab, id.value, st.tab.identifiers).value].scope < st.tab.level))
    ensures r.Ok? ==> Sound(r.value.0) && Grows(st, r.value.0) && r.value.0.tab.level == st.tab.level
    ensures r.Ok? ==> r.value.1 == |st.tab.vars| && |r.value.0.tab.vars| == |st.tab.vars| + 1
    ensures r.Ok? ==> var v := r.value.0.tab.vars[r.value.1];
      v.name == id.value && v.ty == ty && v.scope == st.tab.level && !v.defined
    ensures r.Ok? && st.tab.level == GLOBAL && Find(st.tab, id.value, st.tab.identifiers).None? ==>
      r.value.0.stack == st.stack && r.value.0.tab.identifiers == st.tab.identifiers
  {
    match id
    case None => Err(NoIdentifier)
    case Some(name) =>
      var found := Find(st.tab, name, st.tab.identifiers);
      if found.None? && st.tab.level == GLOBAL then
        InstalledKeeps(st.tab, name, true, GLOBAL, ty);
        var (t1, p) := Installed(st.tab, name, true, GLOBAL, ty);
        Ok((St(t1, st.stack), p))
      else if found.None? || st.tab.vars[found.value].scope < st.tab.level then
        InstalledKeeps(st.tab, name, false, st.tab.level, ty);
        var (t1, p) := Installed(st.tab, name, false, st.tab.level, ty);
        Ok((SetOffset(St(t1, st.stack), p), p))
      else Err(Redeclaration)
  }

  /** The declarator loop of `ex_decltn`: the one declarator's name is
      declared again for every `,`, then `;` ends the declaration. */
  function Declarations(ts: seq<Token>, i: nat, st: St, id: Option<string>, ty: Type): (r: Result<(St, nat)>)
    requires ValidTokens(ts) && i < |ts| && Sound(st)
    ensures r.Ok? ==> i < r.value.1 < |ts| && Sound(r.value.0) && Grows(st, r.value.0)
    ensures r.Ok? ==> r.value.0.tab.level == st.tab.level
    decreases |ts| - i, 1
  {
    var dn :- Decltn(st, id, ty);
    NextDeclarator(ts, i, dn.0, id, ty)
  }

  /** What follows a declaration in the declarator loop: a `,` and the
      next pass, or the closing `;`. */
  function NextDeclarator(ts: seq<Token>, i: nat, st: St, id: Option<string>, ty: Type): (r: Result<(St, nat)>)
    requires ValidTokens(ts) && i < |ts| && Sound(st)
    ensures r.Ok? ==> i < r.value.1 < |ts| && Sound(r.value.0) && Grows(st, r.value.0)
    ensures r.Ok? ==> r.value.0.tab.level == st.tab.level
    ensures r.Ok? && !Consumes(ts[i], ",") ==> r.value == (st, i + 1)
    decreases |ts| - i, 0
  {
    if Consumes(ts[i], ",") then Declarations(ts, i + 1, st, id, ty)
    else if !Consumes(ts[i], ";") then Err(ExpectMsg(";"))
    else Ok((st, i + 1))
  }

  /** `ex_decltn` below file scope: a type specifier, one declarator, and
      the declarator loop; nothing is returned. */
  function LocalDecl(ts: seq<Token>, i: nat, st: St, d: Dialect): (r: Result<(St, nat)>)
    requires ValidTokens(ts) && i < |ts| && Sound(st)
    ensures r.Ok? ==> i < r.value.1 < |ts| && Sound(r.value.0) && Grows(st, r.value.0)
  {
    var spcf :- TypeSpcf(ts[i]);
    var dc :- Decltr(ts, i + 1, st, spcf, false, None, d);
    Declarations(ts, dc.1.pos, dc.1.st, dc.1.id, dc.0)
  }
}
