/// The symbol table of the typed front end (sym.c). Entries live in scopes;
/// each scope has a nesting level, a list of entries newest first, and the
/// enclosing scope. `identifiers` is the innermost scope in use, `globals`
/// the file scope, and `level` the current nesting depth.
///
/// Entries and scopes are heap records that other code keeps pointers to
/// and updates; here they live in two arrays of records indexed by number,
/// and a pointer is an index.

module Sym {
  import opened Util
  import opened Types

  /** The scope levels. Their values are not part of the repository's
      shown headers; these follow lcc, whose symbol table this one copies:
      file scope, then parameters, then the outermost block, each nested
      block one deeper. */
  const GLOBAL: int := 3
  const PARAM: int := 4
  const LOCAL: int := 5

  /** A `Var`: its name, type, the level it was declared at, its stack
      offset and whether it is a defined parameter. Its `len` is the name's
      length. */
  datatype Var = Var(name: string, ty: Type, scope: int, offset: int, defined: bool)

  /** A `Scope`: level, entries newest first, enclosing scope. */
  datatype Frame = Frame(level: int, entries: seq<nat>, previous: Option<nat>)

  /** The state of sym.c: the static `level`, every entry and scope made so
      far, and the `globals` and `identifiers` pointers. */
  datatype Table = Table(level: int, vars: seq<Var>, frames: seq<Frame>, globals: nat, identifiers: nat)

  /** Every pointer points at a record; a scope's enclosing scope is older
      and strictly shallower; only file-level scopes have no enclosing one. */
  predicate WellFormed(t: Table) {
    && t.globals < |t.frames| && t.identifiers < |t.frames|
    && (forall f :: 0 <= f < |t.frames| ==> FrameOk(t, f))
  }

  predicate FrameOk(t: Table, f: nat)
    requires f < |t.frames|
  {
    var fr := t.frames[f];
    && (fr.previous.Some? ==> fr.previous.value < f && t.frames[fr.previous.value].level < fr.level)
    && (fr.previous.None? ==> fr.level <= GLOBAL)
    && (forall k :: 0 <= k < |fr.entries| ==> fr.entries[k] < |t.vars|)
  }

  /** The table before `initscope`: one empty file scope (`ids`). */
  function Initial(): (t: Table)
    ensures WellFormed(t)
  {
    Table(0, [], [Frame(GLOBAL, [], None)], 0, 0)
  }

  /** The first of `entries` naming `name`, newest first. */
  function FirstNamed(vars: seq<Var>, entries: seq<nat>, name: string): (r: Option<nat>)
    requires forall k :: 0 <= k < |entries| ==> entries[k] < |vars|
    ensures r.Some? ==> r.value in entries && vars[r.value].name == name
    ensures r.None? <==> forall k :: 0 <= k < |entries| ==> vars[entries[k]].name != name
  {
    if |entries| == 0 then None
    else if vars[entries[0]].name == name then Some(entries[0])
    else FirstNamed(vars, entries[1..], name)
  }

  /** `lookup(name, sp)`: the newest entry named `name` in scope `f`, else in
      its enclosing scopes, innermost first. */
  function Find(t: Table, name: string, f: nat): (r: Option<nat>)
    requires WellFormed(t) && f < |t.frames|
    ensures r.Some? ==> r.value < |t.vars| && t.vars[r.value].name == name
    decreases f
  {
    assert FrameOk(t, f);
    match FirstNamed(t.vars, t.frames[f].entries, name)
    case Some(p) => Some(p)
    case None =>
      match t.frames[f].previous
      case None => None
      case Some(g) => Find(t, name, g)
  }

  /** `scope(p, level)`: a new empty scope at `level` enclosed by `p`. */
  function NewScope(t: Table, p: nat, level: int): (r: (Table, nat))
    requires WellFormed(t) && p < |t.frames| && t.frames[p].level < level
    ensures WellFormed(r.0) && r.1 == |t.frames| && r.0.frames == t.frames + [Frame(level, [], Some(p))]
    ensures r.0.vars == t.vars && r.0.level == t.level
    ensures r.0.globals == t.globals && r.0.identifiers == t.identifiers
  {
    var t' := t.(frames := t.frames + [Frame(level, [], Some(p))]);
    assert forall f :: 0 <= f < |t.frames| ==> t'.frames[f] == t.frames[f];
    assert forall f :: 0 <= f < |t'.frames| ==> FrameOk(t', f) by {
      forall f | 0 <= f < |t'.frames| ensures FrameOk(t', f) {
        if f < |t.frames| { assert FrameOk(t, f); }
      }
    }
    (t', |t.frames|)
  }

  /** The scope `install` puts an entry in: the given one, or a new scope at
      `level` enclosed by it when `level` is positive and deeper than it. */
  function Target(t: Table, sp: nat, level: int): (r: (Table, nat))
    requires WellFormed(t) && sp < |t.frames|
    ensures WellFormed(r.0) && r.1 < |r.0.frames|
    ensures r.0.vars == t.vars && r.0.level == t.level
    ensures r.0.globals == t.globals && r.0.identifiers == t.identifiers
    ensures level > 0 && t.frames[sp].level < level ==>
      r.1 == |t.frames| && r.0.frames == t.frames + [Frame(level, [], Some(sp))]
    ensures !(level > 0 && t.frames[sp].level < level) ==> r == (t, sp)
  {
    if level > 0 && t.frames[sp].level < level then NewScope(t, sp, level) else (t, sp)
  }

  /** `install(name, spp, level, ty)`, with `toGlobals` choosing `&globals`
      or `&identifiers` as `spp`: a new entry (named `name`, typed `ty`, at
      `level`) heads the chosen scope or a new deeper one, and `*spp` is set
      to that scope. */
  function Installed(t: Table, name: string, toGlobals: bool, level: int, ty: Type): (r: (Table, nat))
    requires WellFormed(t)
    ensures WellFormed(r.0) && r.1 == |t.vars|
    ensures r.0.vars == t.vars + [Var(name, ty, level, 0, false)]
    ensures r.0.level == t.level
    ensures toGlobals ==> r.0.identifiers == t.identifiers
    ensures !toGlobals ==> r.0.globals == t.globals
  {
    var sp := if toGlobals then t.globals else t.identifiers;
    var (t1, f) := Target(t, sp, level);
    var p := |t1.vars|;
    var fr := t1.frames[f];
    var t2 := t1.(vars := t1.vars + [Var(name, ty, level, 0, false)],
                  frames := t1.frames[f := fr.(entries := [p] + fr.entries)]);
    assert forall g :: 0 <= g < |t2.frames| ==> FrameOk(t2, g) by {
      forall g | 0 <= g < |t2.frames| ensures FrameOk(t2, g) {
        assert FrameOk(t1, g);
      }
    }
    var t3 := if toGlobals then t2.(globals := f) else t2.(identifiers := f);
    assert forall g :: 0 <= g < |t3.frames| ==> FrameOk(t3, g) by {
      forall g | 0 <= g < |t3.frames| ensures FrameOk(t3, g) {
        assert FrameOk(t2, g);
      }
    }
    (t3, p)
  }

  /** The scope `Install` leaves `*spp` pointing at. */
  function Used(t: Table, toGlobals: bool): nat {
    if toGlobals then t.globals else t.identifiers
  }

  /** `enterscope`. */
  function Entered(t: Table): (r: Table)
    ensures r.level == t.level + 1 && r.(level := t.level) == t
    ensures WellFormed(t) ==> WellFormed(r)
  {
    var r := t.(level := t.level + 1);
    assert WellFormed(t) ==> WellFormed(r) by {
      if WellFormed(t) { SameScopes(t, r); }
    }
    r
  }

  /** Well-formedness only looks at the scopes and the number of entries. */
  lemma SameScopes(t: Table, r: Table)
    requires WellFormed(t) && |r.vars| == |t.vars| && r.frames == t.frames
    requires r.globals < |r.frames| && r.identifiers < |r.frames|
    ensures WellFormed(r)
  {
    forall f | 0 <= f < |r.frames| ensures FrameOk(r, f) {
      assert FrameOk(t, f);
    }
  }

  /** `exitscope`: the innermost scope is dropped when it belongs to the
      current level; then the level goes down by one. The source asserts
      `level >= GLOBAL`; see the model's notes for the file level itself. */
  function Exited(t: Table): (r: Table)
    requires WellFormed(t) && t.level > GLOBAL
    ensures WellFormed(r) && r.level == t.level - 1
    ensures r.vars == t.vars && r.frames == t.frames && r.globals == t.globals
    ensures t.frames[t.identifiers].level == t.level ==>
      t.frames[t.identifiers].previous.Some? && r.identifiers == t.frames[t.identifiers].previous.value
    ensures t.frames[t.identifiers].level != t.level ==> r.identifiers == t.identifiers
  {
    assert FrameOk(t, t.identifiers);
    var fr := t.frames[t.identifiers];
    var r := if fr.level == t.level then
      t.(identifiers := fr.previous.value, level := t.level - 1)
    else
      t.(level := t.level - 1);
    SameScopes(t, r);
    r
  }

  /** `initscope`. */
  function Reset(t: Table): (r: Table)
    ensures r.level == GLOBAL && r.(level := t.level) == t
    ensures WellFormed(t) ==> WellFormed(r)
  {
    var r := t.(level := GLOBAL);
    assert WellFormed(t) ==> WellFormed(r) by {
      if WellFormed(t) { SameScopes(t, r); }
    }
    r
  }

  /** `p->offset = off`: one entry's stack offset changes, nothing else. */
  function WithOffset(t: Table, p: nat, off: int): (r: Table)
    requires WellFormed(t) && p < |t.vars|
    ensures WellFormed(r) && |r.vars| == |t.vars| && r.vars[p] == t.vars[p].(offset := off)
    ensures forall q :: 0 <= q < |t.vars| && q != p ==> r.vars[q] == t.vars[q]
    ensures r.frames == t.frames && r.level == t.level
    ensures r.globals == t.globals && r.identifiers == t.identifiers
  {
    var r := t.(vars := t.vars[p := t.vars[p].(offset := off)]);
    SameScopes(t, r);
    r
  }

  /** `p->defined = 1`: one entry is marked defined, nothing else changes. */
  function WithDefined(t: Table, p: nat): (r: Table)
    requires WellFormed(t) && p < |t.vars|
    ensures WellFormed(r) && |r.vars| == |t.vars| && r.vars[p] == t.vars[p].(defined := true)
    ensures forall q :: 0 <= q < |t.vars| && q != p ==> r.vars[q] == t.vars[q]
    ensures r.frames == t.frames && r.level == t.level
    ensures r.globals == t.globals && r.identifiers == t.identifiers
  {
    var r := t.(vars := t.vars[p := t.vars[p].(defined := true)]);
    SameScopes(t, r);
    r
  }

  /** `identifiers = globals`: lookups start again from the file scope. */
  function AtFileScope(t: Table): (r: Table)
    requires WellFormed(t)
    ensures WellFormed(r) && r.identifiers == t.globals && r.(identifiers := t.identifiers) == t
  {
    var r := t.(identifiers := t.globals);
    SameScopes(t, r);
    r
  }

  /** Lookups see only names: tables that differ in other fields of their
      entries find the same entries. */
  lemma {:induction false} FindSameNames(t: Table, r: Table, n: string, f: nat)
    requires WellFormed(t) && WellFormed(r) && r.frames == t.frames && f < |t.frames|
    requires |r.vars| == |t.vars| && forall q :: 0 <= q < |t.vars| ==> r.vars[q].name == t.vars[q].name
    ensures Find(r, n, f) == Find(t, n, f)
    decreases f
  {
    assert FrameOk(t, f);
    FirstNamedSameNames(t.vars, r.vars, t.frames[f].entries, n);
    if t.frames[f].previous.Some? {
      FindSameNames(t, r, n, t.frames[f].previous.value);
    }
  }

  lemma {:induction false} FirstNamedSameNames(vars: seq<Var>, vars': seq<Var>, es: seq<nat>, n: string)
    requires forall k :: 0 <= k < |es| ==> es[k] < |vars|
    requires |vars'| == |vars| && forall q :: 0 <= q < |vars| ==> vars'[q].name == vars[q].name
    ensures FirstNamed(vars', es, n) == FirstNamed(vars, es, n)
    decreases |es|
  {
    if |es| > 0 {
      FirstNamedSameNames(vars, vars', es[1..], n);
    }
  }

  /** Looking a name up after installing another changes nothing, from any
      scope that existed before. */
  lemma {:induction false} FindOther(t: Table, name: string, toGlobals: bool, level: int, ty: Type, n: string, f: nat)
    requires WellFormed(t) && f < |t.frames| && n != name
    ensures f < |Installed(t, name, toGlobals, level, ty).0.frames|
    ensures Find(Installed(t, name, toGlobals, level, ty).0, n, f) == Find(t, n, f)
    decreases f
  {
    var t' := Installed(t, name, toGlobals, level, ty).0;
    assert FrameOk(t, f);
    var sp := Used(t, toGlobals);
    var (t1, g) := Target(t, sp, level);
    assert t'.frames[f].previous == t.frames[f].previous;
    FirstNamedOther(t.vars, t'.vars, t.frames[f].entries, t'.frames[f].entries, n);
    if t.frames[f].previous.Some? {
      FindOther(t, name, toGlobals, level, ty, n, t.frames[f].previous.value);
    }
  }

  /** Adding entries named otherwise, or entries the list does not mention,
      does not change which entry named `n` comes first. */
  lemma {:induction false} FirstNamedOther(vars: seq<Var>, vars': seq<Var>, es: seq<nat>, es': seq<nat>, n: string)
    requires forall k :: 0 <= k < |es| ==> es[k] < |vars|
    requires |vars| <= |vars'| && vars'[..|vars|] == vars
    requires es' == es || (|es'| == |es| + 1 && es'[1..] == es && es'[0] < |vars'| && vars'[es'[0]].name != n)
    ensures forall k :: 0 <= k < |es'| ==> es'[k] < |vars'|
    ensures FirstNamed(vars', es', n) == FirstNamed(vars, es, n)
    decreases |es'|
  {
    if es' != es {
      FirstNamedOther(vars, vars', es, es, n);
    } else if |es| > 0 {
      assert vars'[es[0]] == vars[es[0]];
      FirstNamedOther(vars, vars', es[1..], es[1..], n);
    }
  }

  /** After `install`, looking the name up from the scope `*spp` now points
      at finds the new entry, which hides any older one of that name. */
  lemma InstallFound(t: Table, name: string, toGlobals: bool, level: int, ty: Type)
    requires WellFormed(t)
    ensures var (t', p) := Installed(t, name, toGlobals, level, ty);
      Used(t', toGlobals) < |t'.frames| && Find(t', name, Used(t', toGlobals)) == Some(p)
  {
    var (t', p) := Installed(t, name, toGlobals, level, ty);
    var f := Used(t', toGlobals);
    assert t'.frames[f].entries[0] == p;
  }

  /** Shadowing: entering a scope and declaring `name` there hides the outer
      entry of that name; leaving the scope again finds exactly what was
      found before, for every name. */
  lemma {:induction false} Shadowing(t: Table, name: string, ty: Type, n: string)
    requires WellFormed(t) && t.level >= GLOBAL
    requires t.frames[t.identifiers].level <= t.level
    ensures var t1 := Entered(t);
      var (t2, p) := Installed(t1, name, false, t1.level, ty);
      && Find(t2, name, t2.identifiers) == Some(p)
      && t2.level > GLOBAL
      && Exited(t2).level == t.level
      && Exited(t2).identifiers < |t.frames|
      && Find(Exited(t2), n, Exited(t2).identifiers) == Find(t, n, t.identifiers)
  {
    var t1 := Entered(t);
    var (t2, p) := Installed(t1, name, false, t1.level, ty);
    InstallFound(t1, name, false, t1.level, ty);
    assert t2.frames[t2.identifiers] == Frame(t1.level, [p], Some(t.identifiers));
    var t3 := Exited(t2);
    assert t3.identifiers == t.identifiers;
    assert t3.frames[..|t.frames|] == t.frames;
    assert t3.vars[..|t.vars|] == t.vars;
    FindPrefix(t, t3, n, t.identifiers);
  }

  /** Scopes that existed before a new one was added, with the same contents,
      give the same lookups. */
  lemma {:induction false} FindPrefix(t: Table, t': Table, n: string, f: nat)
    requires WellFormed(t) && WellFormed(t') && f < |t.frames|
    requires |t.frames| <= |t'.frames| && t'.frames[..|t.frames|] == t.frames
    requires |t.vars| <= |t'.vars| && t'.vars[..|t.vars|] == t.vars
    ensures Find(t', n, f) == Find(t, n, f)
    decreases f
  {
    assert FrameOk(t, f);
    assert t'.frames[f] == t.frames[f];
    FirstNamedOther(t.vars, t'.vars, t.frames[f].entries, t.frames[f].entries, n);
    if t.frames[f].previous.Some? {
      FindPrefix(t, t', n, t.frames[f].previous.value);
    }
  }

  /** The mutable symbol table: sym.c's statics. */
  class SymTab {
    var level: int
    var vars: seq<Var>
    var frames: seq<Frame>
    var globals: nat
    var identifiers: nat

    function State(): Table
      reads this
    {
      Table(level, vars, frames, globals, identifiers)
    }

    ghost predicate Valid()
      reads this
    {
      WellFormed(State())
    }

    constructor ()
      ensures State() == Initial()
    {
      level := 0;
      vars := [];
      frames := [Frame(GLOBAL, [], None)];
      globals := 0;
      identifiers := 0;
    }

    /** `scope(p, level)`. */
    method Scope(p: nat, lvl: int) returns (f: nat)
      requires Valid() && p < |frames| && frames[p].level < lvl
      modifies this
      ensures (State(), f) == NewScope(old(State()), p, lvl)
    {
      frames := frames + [Frame(lvl, [], Some(p))];
      f := |frames| - 1;
    }

    /** `install`. */
    method Install(name: string, toGlobals: bool, lvl: int, ty: Type) returns (p: nat)
      requires Valid()
      modifies this
      ensures (State(), p) == Installed(old(State()), name, toGlobals, lvl, ty)
    {
      var sp := if toGlobals then globals else identifiers;
      if lvl > 0 && frames[sp].level < lvl {
        sp := Scope(sp, lvl);
      }
      p := |vars|;
      vars := vars + [Var(name, ty, lvl, 0, false)];
      frames := frames[sp := frames[sp].(entries := [p] + frames[sp].entries)];
      if toGlobals {
        globals := sp;
      } else {
        identifiers := sp;
      }
    }

    /** `lookup(name, sp)`: scans each scope's entries newest first, then the
        enclosing scope, and returns the first entry spelt `name`. */
    method Lookup(name: string, sp: nat) returns (r: Option<nat>)
      requires Valid() && sp < |frames|
      ensures r == Find(State(), name, sp)
    {
      var f: nat := sp;
      while true
        invariant f < |frames| && Find(State(), name, sp) == Find(State(), name, f)
        decreases f
      {
        assert FrameOk(State(), f);
        r := ScanScope(frames[f].entries, name);
        if r.Some? {
          return;
        }
        match frames[f].previous
        case None => return None;
        case Some(g) => f := g;
      }
    }

    /** The inner loop of `lookup`: one scope's entries, newest first. */
    method ScanScope(es: seq<nat>, name: string) returns (r: Option<nat>)
      requires forall k :: 0 <= k < |es| ==> es[k] < |vars|
      ensures r == FirstNamed(vars, es, name)
    {
      var k := 0;
      while k < |es|
        invariant 0 <= k <= |es|
        invariant FirstNamed(vars, es, name) == FirstNamed(vars, es[k..], name)
      {
        if vars[es[k]].name == name {
          return Some(es[k]);
        }
        k := k + 1;
      }
      return None;
    }

    /** `enterscope`. */
    method EnterScope()
      modifies this
      ensures State() == Entered(old(State()))
    {
      level := level + 1;
    }

    /** `exitscope`. */
    method ExitScope()
      requires Valid() && level > GLOBAL
      modifies this
      ensures State() == Exited(old(State()))
    {
      assert FrameOk(State(), identifiers);
      if frames[identifiers].level == level {
        identifiers := frames[identifiers].previous.value;
      }
      level := level - 1;
    }

    /** `initscope`. */
    method InitScope()
      modifies this
      ensures State() == Reset(old(State()))
    {
      level := GLOBAL;
    }

    /** `p->offset = off`. */
    method SetOffset(p: nat, off: int)
      requires Valid() && p < |vars|
      modifies this
      ensures State() == WithOffset(old(State()), p, off)
    {
      vars := vars[p := vars[p].(offset := off)];
    }

    /** `p->defined = 1`. */
    method SetDefined(p: nat)
      requires Valid() && p < |vars|
      modifies this
      ensures State() == WithDefined(old(State()), p)
    {
      vars := vars[p := vars[p].(defined := true)];
    }

    /** `identifiers = globals`. */
    method UseFileScope()
      requires Valid()
      modifies this
      ensures State() == AtFileScope(old(State()))
    {
      identifiers := globals;
    }

    /** `getlevel`. */
    method GetLevel() returns (l: int)
      ensures l == level
    {
      return level;
    }
  }
}
