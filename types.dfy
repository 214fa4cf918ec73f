/// The types of the typed front end (type.c): `int`, `char`, pointers,
/// arrays and functions, their sizes, and the pointer/array conversions the
/// expression builder relies on.

module Types {
  import opened Util

  /** The `Type` record. `Ptr` and `Array` carry the `ptr_to` field, an array
      its `array_size`; a function type keeps its return type, and its
      `p_list` is never filled in, so it is not modelled. */
  datatype Type =
    | Int
    | Char
    | Ptr(to: Type)
    | Array(elem: Type, count: nat)
    | Function(ret: Type)

  /** `type_size` has no case for a function type: only types without a
      function where an array element is expected have a size. */
  predicate Sized(t: Type) {
    match t
    case Function(_) => false
    case Array(e, _) => Sized(e)
    case _ => true
  }

  /** `type_size`: 4 for `int`, 1 for `char`, 8 for a pointer, and the
      element size times the length for an array. */
  function TypeSize(t: Type): (r: nat)
    requires Sized(t)
    ensures t.Int? ==> r == 4
    ensures t.Char? ==> r == 1
    ensures t.Ptr? ==> r == 8
    ensures t.Array? ==> r == t.count * TypeSize(t.elem)
  {
    match t
    case Int => 4
    case Char => 1
    case Ptr(_) => 8
    case Array(e, n) => n * TypeSize(e)
  }

  /** The innermost element type of a (possibly nested) array type. */
  function Scalar(t: Type): (r: Type)
    ensures !r.Array?
  {
    if t.Array? then Scalar(t.elem) else t
  }

  /** The number of scalar elements of a (possibly nested) array type: the
      product of its lengths. */
  function Elements(t: Type): nat {
    if t.Array? then t.count * Elements(t.elem) else 1
  }

  /** An array's size is its number of scalar elements times the scalar's
      size, whatever the nesting. */
  lemma {:induction false} ArraySize(t: Type)
    requires Sized(t)
    ensures Sized(Scalar(t)) && TypeSize(t) == Elements(t) * TypeSize(Scalar(t))
  {
    if t.Array? {
      ArraySize(t.elem);
      calc {
        TypeSize(t);
        t.count * TypeSize(t.elem);
        t.count * (Elements(t.elem) * TypeSize(Scalar(t.elem)));
        { MulAssoc(t.count, Elements(t.elem), TypeSize(Scalar(t.elem))); }
        (t.count * Elements(t.elem)) * TypeSize(Scalar(t.elem));
      }
    }
  }

  lemma MulAssoc(a: nat, b: nat, c: nat)
    ensures a * (b * c) == (a * b) * c
  {
  }

  /** Sized types whose array lengths are all positive have a positive size. */
  predicate NoEmptyArray(t: Type) {
    match t
    case Array(e, n) => n > 0 && NoEmptyArray(e)
    case _ => true
  }

  lemma {:induction false} SizePositive(t: Type)
    requires Sized(t) && NoEmptyArray(t)
    ensures TypeSize(t) > 0
  {
    if t.Array? {
      SizePositive(t.elem);
      assert TypeSize(t) == t.count * TypeSize(t.elem);
      PositiveProduct(t.count, TypeSize(t.elem));
    }
  }

  lemma PositiveProduct(a: nat, b: nat)
    requires a > 0 && b > 0
    ensures a * b > 0
  {
  }

  /** The `size` field a type carries: `type` stores `type_size`, and the
      zeroed record of a function type leaves it 0. */
  function StoredSize(t: Type): (r: nat)
    ensures Sized(t) ==> r == TypeSize(t)
    ensures t.Function? ==> r == 0
  {
    if Sized(t) then TypeSize(t) else 0
  }

  /** `ptr(t)`: `type(PTR, t)`, a pointer to `t` whose size is 8. */
  function PtrTo(t: Type): (r: Type)
    ensures Sized(r) && TypeSize(r) == 8 && StoredSize(r) == 8
    ensures Deref(r) == Ok(t)
  {
    Ptr(t)
  }

  /** `isptr`, `isarray`, `isfunc`: the kind of a type. */
  predicate IsPtr(t: Type) { t.Ptr? }
  predicate IsArray(t: Type) { t.Array? }
  predicate IsFunc(t: Type) { t.Function? }

  /** `iscint`: `int` or `char`. */
  predicate IsCInt(t: Type) { t.Int? || t.Char? }

  /** `isint`: `int` only. */
  predicate IsInt(t: Type) { t.Int? }

  const PointerExpected := "type error: pointer expected"
  const ArrayExpected := "type error: array expected"

  /** `deref`: the pointee of a pointer or the element of an array; any
      other type is a type error. */
  function Deref(t: Type): (r: Result<Type>)
    ensures r.Ok? <==> (t.Ptr? || t.Array?)
    ensures t.Ptr? ==> r == Ok(t.to)
    ensures t.Array? ==> r == Ok(t.elem)
    ensures r.Err? ==> r.msg == PointerExpected
  {
    match t
    case Ptr(p) => Ok(p)
    case Array(e, _) => Ok(e)
    case _ => Err(PointerExpected)
  }

  /** `atop`: an array decays to a pointer to its element; any other type is
      a type error. */
  function Atop(t: Type): (r: Result<Type>)
    ensures r.Ok? <==> t.Array?
    ensures r.Ok? ==> IsPtr(r.value) && r.value == PtrTo(t.elem) && TypeSize(r.value) == 8
    ensures r.Err? ==> r.msg == ArrayExpected
  {
    if t.Array? then Ok(PtrTo(t.elem)) else Err(ArrayExpected)
  }

  /** Decaying an array keeps what dereferencing it gives. */
  lemma DecayKeepsPointee(t: Type)
    requires t.Array?
    ensures Atop(t).Ok? && Deref(Atop(t).value) == Deref(t)
  {
  }

  /** `int a[2][3]`: 24 bytes, six `int`s. */
  lemma TwoByThree()
    ensures TypeSize(Array(Array(Int, 3), 2)) == 24
    ensures Elements(Array(Array(Int, 3), 2)) == 6
  {
  }
}
