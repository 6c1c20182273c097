/**
 * The type traits over a small descriptor of C++ types: fundamental types,
 * classes, pointers, lvalue and rvalue references, and top-level
 * const/volatile qualification. A trait that maps types to types is a
 * function on descriptors, and a trait with a boolean `value` is a predicate.
 * A partial specialisation is a case of a match.
 *
 * Descriptors are kept canonical, as the compiler keeps types: qualifiers
 * applied twice merge, qualifiers applied to a reference vanish, and a
 * reference to a reference collapses.
 */
module TypeTraits {
  import opened Options

  /* ---------------------------------------------------------------------- */
  /* Type descriptors                                                        */
  /* ---------------------------------------------------------------------- */

  /** The fundamental types the traits name. */
  datatype Fundamental =
    | Void | Bool | Char | Char16 | Char32 | WChar
    | Short | Int | Long | LongLong
    | Float | Double | LongDouble
    | NullPtr

  /** A type: a fundamental type, a class by name, `T*`, `T&`, `T&&`, or a
      cv-qualified type. */
  datatype Ty =
    | Prim(kind: Fundamental)
    | Class(name: string)
    | Ptr(pointee: Ty)
    | LRef(referent: Ty)
    | RRef(referent: Ty)
    | Cv(isConst: bool, isVolatile: bool, unqualified: Ty)

  /** `T&` or `T&&`. */
  predicate IsRef(t: Ty)
  {
    t.LRef? || t.RRef?
  }

  /** `void` with or without qualifiers. */
  predicate IsVoidLike(t: Ty)
  {
    t == Prim(Void) || (t.Cv? && t.unqualified == Prim(Void))
  }

  /** A descriptor the compiler can form: qualifiers are not empty, not
      nested and not on a reference; no pointer or reference to a
      reference; no reference to `void`. */
  predicate WellFormed(t: Ty)
  {
    match t
    case Prim(_) => true
    case Class(_) => true
    case Ptr(u) => WellFormed(u) && !IsRef(u)
    case LRef(u) => WellFormed(u) && !IsRef(u) && !IsVoidLike(u)
    case RRef(u) => WellFormed(u) && !IsRef(u) && !IsVoidLike(u)
    case Cv(c, v, u) => (c || v) && WellFormed(u) && !u.Cv? && !IsRef(u)
  }

  /** The type `cv T`: qualifiers merge with those `T` already has and are
      dropped on a reference. */
  function Qualify(c: bool, v: bool, t: Ty): (r: Ty)
    ensures WellFormed(t) ==> WellFormed(r)
    ensures IsRef(t) ==> r == t
  {
    if IsRef(t) then t
    else if t.Cv? then Cv(t.isConst || c, t.isVolatile || v, t.unqualified)
    else if c || v then Cv(c, v, t)
    else t
  }

  /** `T&` formed by substitution, for a `T` that is not `void`: a reference
      to a reference collapses to an lvalue reference. */
  function MakeLRef(t: Ty): Ty
  {
    if IsRef(t) then LRef(t.referent) else LRef(t)
  }

  /** `T&&` formed by substitution, for a `T` that is not `void`: `U& &&` is
      `U&` and `U&& &&` is `U&&`. */
  function MakeRRef(t: Ty): Ty
  {
    if IsRef(t) then t else RRef(t)
  }

  /* ---------------------------------------------------------------------- */
  /* conditional and enable_if                                               */
  /* ---------------------------------------------------------------------- */

  /** `conditional<B, If, Else>::type`. */
  function Conditional<T>(b: bool, ifTrue: T, ifFalse: T): (r: T)
    ensures b ==> r == ifTrue
    ensures !b ==> r == ifFalse
  {
    if b then ifTrue else ifFalse
  }

  /** `enable_if<B, T>::type`: `T` when `B` holds; otherwise there is no
      `type`, which removes an overload from consideration. */
  function EnableIf<T>(b: bool, t: T): (r: Option<T>)
    ensures r.Some? <==> b
    ensures r.Some? ==> r.value == t
  {
    if b then Some(t) else None
  }

  /* ---------------------------------------------------------------------- */
  /* Removal traits                                                          */
  /* ---------------------------------------------------------------------- */

  /** `remove_reference`: the primary template and the `T&` and `T&&`
      specialisations. */
  function RemoveReference(t: Ty): (r: Ty)
    ensures IsRef(t) ==> t == LRef(r) || t == RRef(r)
    ensures !IsRef(t) ==> r == t
  {
    match t
    case LRef(u) => u
    case RRef(u) => u
    case _ => t
  }

  /** `remove_cv`: the `const T`, `volatile T` and `const volatile T`
      specialisations all give `T`. */
  function RemoveCv(t: Ty): (r: Ty)
    ensures WellFormed(t) ==> !r.Cv? && WellFormed(r)
    ensures WellFormed(t) ==> Qualify(t.Cv? && t.isConst, t.Cv? && t.isVolatile, r) == t
  {
    if t.Cv? then t.unqualified else t
  }

  /** `remove_const`: strips `const` and keeps `volatile`. */
  function RemoveConst(t: Ty): (r: Ty)
    ensures WellFormed(t) ==> WellFormed(r) && !(r.Cv? && r.isConst)
    ensures WellFormed(t) ==> (r.Cv? && r.isVolatile) == (t.Cv? && t.isVolatile)
    ensures WellFormed(t) ==> RemoveCv(r) == RemoveCv(t)
  {
    if t.Cv? && t.isConst then Qualify(false, t.isVolatile, t.unqualified) else t
  }

  /** `remove_volatile`: strips `volatile` and keeps `const`. */
  function RemoveVolatile(t: Ty): (r: Ty)
    ensures WellFormed(t) ==> WellFormed(r) && !(r.Cv? && r.isVolatile)
    ensures WellFormed(t) ==> (r.Cv? && r.isConst) == (t.Cv? && t.isConst)
    ensures WellFormed(t) ==> RemoveCv(r) == RemoveCv(t)
  {
    if t.Cv? && t.isVolatile then Qualify(t.isConst, false, t.unqualified) else t
  }

  /** `remove_cvref`: `remove_cv` of `remove_reference`. */
  function RemoveCvref(t: Ty): (r: Ty)
    ensures WellFormed(t) ==> WellFormed(r) && !IsRef(r) && !r.Cv?
    ensures !IsRef(t) && !t.Cv? ==> r == t
  {
    RemoveCv(RemoveReference(t))
  }

  /** `remove_pointer`: `T*` and its const, volatile and const volatile
      forms give `T`; any other type is returned as it is. */
  function RemovePointer(t: Ty): (r: Ty)
    ensures RemoveCv(t).Ptr? ==> RemoveCv(t) == Ptr(r)
    ensures !RemoveCv(t).Ptr? ==> r == t
  {
    match t
    case Ptr(u) => u
    case Cv(_, _, Ptr(u)) => u
    case _ => t
  }

  /** `remove_reference` strips exactly one reference, and its result is not
      a reference. */
  lemma RemoveReferenceStripsOne(t: Ty)
    requires WellFormed(t)
    ensures RemoveReference(LRef(t)) == t && RemoveReference(RRef(t)) == t
    ensures !IsRef(t) ==> RemoveReference(t) == t
    ensures !IsRef(RemoveReference(t)) && WellFormed(RemoveReference(t))
  {
  }

  /** `remove_cv` strips all top-level qualifiers: its result is unqualified,
      and whatever qualifiers are added to `T`, the result is the same. */
  lemma RemoveCvStripsQualifiers(c: bool, v: bool, t: Ty)
    requires WellFormed(t)
    ensures !RemoveCv(t).Cv? && WellFormed(RemoveCv(t))
    ensures RemoveCv(Qualify(c, v, t)) == RemoveCv(t)
  {
  }

  /** `remove_const` and `remove_volatile` each strip one qualifier and keep
      the other; applying both is `remove_cv`. */
  lemma RemoveConstVolatile(t: Ty)
    requires WellFormed(t)
    ensures !IsConst(RemoveConst(t)) && !IsVolatile(RemoveVolatile(t))
    ensures IsVolatile(RemoveConst(t)) == IsVolatile(t)
    ensures IsConst(RemoveVolatile(t)) == IsConst(t)
    ensures RemoveConst(RemoveVolatile(t)) == RemoveCv(t)
    ensures RemoveVolatile(RemoveConst(t)) == RemoveCv(t)
  {
  }

  /** `remove_cvref` gives a type that is neither a reference nor qualified,
      and applying it twice is the same as once. */
  lemma RemoveCvrefIdempotent(t: Ty)
    requires WellFormed(t)
    ensures !IsRef(RemoveCvref(t)) && !RemoveCvref(t).Cv?
    ensures RemoveCvref(RemoveCvref(t)) == RemoveCvref(t)
  {
  }

  /** `remove_pointer` strips one pointer level, including from a qualified
      pointer, and nothing else. */
  lemma RemovePointerStripsOne(c: bool, v: bool, t: Ty)
    requires WellFormed(t) && !IsRef(t)
    ensures RemovePointer(Qualify(c, v, Ptr(t))) == t
    ensures !IsPointer(t) ==> RemovePointer(t) == t
  {
  }

  /* ---------------------------------------------------------------------- */
  /* Adding traits                                                           */
  /* ---------------------------------------------------------------------- */

  /** `add_lvalue_reference`: `T&` through `try_add_lvalue_reference(int)`
      when that is well-formed, otherwise `T` through the `(...)` fallback,
      which is the case for `void`. */
  function AddLvalueReference(t: Ty): (r: Ty)
    ensures IsVoidLike(t) ==> r == t
    ensures !IsVoidLike(t) ==> r.LRef? && RemoveReference(r) == RemoveReference(t)
  {
    if IsVoidLike(t) then t else MakeLRef(t)
  }

  /** `add_rvalue_reference`: `T&&` or, for `void`, `T`. */
  function AddRvalueReference(t: Ty): (r: Ty)
    ensures IsVoidLike(t) || IsRef(t) ==> r == t
    ensures !IsVoidLike(t) && !IsRef(t) ==> r.RRef? && RemoveReference(r) == t
  {
    if IsVoidLike(t) then t else MakeRRef(t)
  }

  /** `add_lvalue_reference<T>` is an lvalue reference to `T` (with `U&&`
      collapsing to `U&`), except for `void`, which comes back unchanged;
      `remove_reference` undoes it. */
  lemma AddLvalueReferenceSpec(t: Ty)
    requires WellFormed(t)
    ensures IsVoidLike(t) ==> AddLvalueReference(t) == t
    ensures !IsVoidLike(t) ==> IsLvalueReference(AddLvalueReference(t))
    ensures RemoveReference(AddLvalueReference(t)) == RemoveReference(t)
    ensures WellFormed(AddLvalueReference(t))
  {
  }

  /** `add_rvalue_reference<T>` is an rvalue reference to `T` unless `T` is
      `void` or already a reference, which come back unchanged. */
  lemma AddRvalueReferenceSpec(t: Ty)
    requires WellFormed(t)
    ensures IsVoidLike(t) || IsRef(t) ==> AddRvalueReference(t) == t
    ensures !IsVoidLike(t) && !IsRef(t) ==> IsRvalueReference(AddRvalueReference(t))
    ensures RemoveReference(AddRvalueReference(t)) == RemoveReference(t)
    ensures WellFormed(AddRvalueReference(t))
  {
  }

  /** `add_cv`: `const volatile T`. */
  function AddCv(t: Ty): (r: Ty)
    ensures IsRef(t) ==> r == t
    ensures !IsRef(t) ==> r.Cv? && r.isConst && r.isVolatile && RemoveCv(r) == RemoveCv(t)
  {
    Qualify(true, true, t)
  }

  /** `add_const` as written: `const volatile T`, the same as `add_cv`. */
  function AddConstAsWritten(t: Ty): (r: Ty)
    ensures r == AddCv(t)
    ensures !IsRef(t) ==> r.Cv? && r.isVolatile
  {
    Qualify(true, true, t)
  }

  /** `add_volatile` as written: `const volatile T`, the same as `add_cv`. */
  function AddVolatileAsWritten(t: Ty): (r: Ty)
    ensures r == AddCv(t)
    ensures !IsRef(t) ==> r.Cv? && r.isConst
  {
    Qualify(true, true, t)
  }

  /** `add_const` as intended: `const T`. */
  function AddConst(t: Ty): (r: Ty)
    ensures IsRef(t) ==> r == t
    ensures !IsRef(t) ==> r.Cv? && r.isConst && r.isVolatile == (t.Cv? && t.isVolatile)
    ensures !IsRef(t) ==> RemoveCv(r) == RemoveCv(t)
  {
    Qualify(true, false, t)
  }

  /** `add_volatile` as intended: `volatile T`. */
  function AddVolatile(t: Ty): (r: Ty)
    ensures IsRef(t) ==> r == t
    ensures !IsRef(t) ==> r.Cv? && r.isVolatile && r.isConst == (t.Cv? && t.isConst)
    ensures !IsRef(t) ==> RemoveCv(r) == RemoveCv(t)
  {
    Qualify(false, true, t)
  }

  /** As written, `add_const` and `add_volatile` are `add_cv`: `add_const<int>`
      is volatile and `add_volatile<int>` is const. */
  lemma AddConstAsWrittenAddsVolatile(t: Ty)
    ensures AddConstAsWritten(t) == AddCv(t) && AddVolatileAsWritten(t) == AddCv(t)
    ensures IsVolatile(AddConstAsWritten(Prim(Int)))
    ensures IsConst(AddVolatileAsWritten(Prim(Int)))
  {
  }

  /** The intended `add_const` makes a non-reference type const and nothing
      else: `remove_const` undoes it on an unqualified type, volatility is
      kept, and `add_const` after `add_volatile` is `add_cv`. The same holds
      for `add_volatile`. */
  lemma AddConstVolatileSpec(t: Ty)
    requires WellFormed(t) && !IsRef(t)
    ensures IsConst(AddConst(t)) && IsVolatile(AddConst(t)) == IsVolatile(t)
    ensures IsVolatile(AddVolatile(t)) && IsConst(AddVolatile(t)) == IsConst(t)
    ensures !IsConst(t) ==> RemoveConst(AddConst(t)) == t
    ensures !IsVolatile(t) ==> RemoveVolatile(AddVolatile(t)) == t
    ensures AddConst(AddVolatile(t)) == AddCv(t) && AddVolatile(AddConst(t)) == AddCv(t)
    ensures RemoveCv(AddCv(t)) == RemoveCv(t)
  {
  }

  /* ---------------------------------------------------------------------- */
  /* Predicates                                                              */
  /* ---------------------------------------------------------------------- */

  /** `is_same<T, U>`: true only through the `is_same<T, T>` specialisation. */
  predicate IsSame(t: Ty, u: Ty)
    ensures IsSame(t, u) <==> t == u
  {
    t == u
  }

  /** Qualifiers added in either order give the same type. */
  lemma IsSameQualifierOrder(t: Ty)
    ensures IsSame(AddConst(AddVolatile(t)), AddVolatile(AddConst(t)))
    ensures IsSame(AddConst(AddConst(t)), AddConst(t))
  {
  }

  /** `is_lvalue_reference`: the `T&` specialisation. */
  predicate IsLvalueReference(t: Ty)
    ensures IsLvalueReference(t) <==> t == LRef(RemoveReference(t))
  {
    t.LRef?
  }

  /** `is_rvalue_reference`: the `T&&` specialisation. */
  predicate IsRvalueReference(t: Ty)
    ensures IsRvalueReference(t) <==> t == RRef(RemoveReference(t))
  {
    t.RRef?
  }

  /** `is_reference`: its own `T&` and `T&&` specialisations. */
  predicate IsReference(t: Ty)
    ensures IsReference(t) <==> IsLvalueReference(t) || IsRvalueReference(t)
  {
    match t
    case LRef(_) => true
    case RRef(_) => true
    case _ => false
  }

  /** A reference is exactly an lvalue or an rvalue reference. */
  lemma IsReferenceSpec(t: Ty)
    ensures IsReference(t) <==> IsLvalueReference(t) || IsRvalueReference(t)
    ensures !(IsLvalueReference(t) && IsRvalueReference(t))
  {
  }

  /** `is_const`: the `const T` specialisation. */
  predicate IsConst(t: Ty)
    ensures IsRef(t) ==> !IsConst(t)
    ensures !IsRef(t) ==> (IsConst(t) <==> Qualify(true, false, t) == t)
  {
    t.Cv? && t.isConst
  }

  /** Whether the type is `volatile`-qualified. */
  predicate IsVolatile(t: Ty)
    ensures !IsRef(t) ==> (IsVolatile(t) <==> Qualify(false, true, t) == t)
  {
    t.Cv? && t.isVolatile
  }

  /** `is_void`: `remove_cv<T>` is `void`. */
  predicate IsVoid(t: Ty)
    ensures IsVoid(t) <==> IsVoidLike(t)
  {
    IsSame(RemoveCv(t), Prim(Void))
  }

  /** `is_null_pointer`: `remove_cv<T>` is `nullptr_t`. */
  predicate IsNullPointer(t: Ty)
    ensures IsNullPointer(t) <==> t == Prim(NullPtr) || (t.Cv? && t.unqualified == Prim(NullPtr))
  {
    IsSame(RemoveCv(t), Prim(NullPtr))
  }

  /** `is_pointer`: `is_pointer_` on `remove_cv<T>`. */
  predicate IsPointer(t: Ty)
    ensures IsPointer(t) <==> t.Ptr? || (t.Cv? && t.unqualified.Ptr?)
  {
    RemoveCv(t).Ptr?
  }

  /** `is_void`, `is_null_pointer` and `is_pointer` ignore top-level
      qualifiers; `is_void` holds exactly for the types `add_lvalue_reference`
      leaves alone. */
  lemma PredicatesIgnoreCv(c: bool, v: bool, t: Ty)
    requires WellFormed(t)
    ensures IsVoid(Qualify(c, v, t)) == IsVoid(t)
    ensures IsNullPointer(Qualify(c, v, t)) == IsNullPointer(t)
    ensures IsPointer(Qualify(c, v, t)) == IsPointer(t)
    ensures IsVoid(t) <==> IsVoidLike(t)
  {
  }

  /** `is_integral` as written: the first disjunct tests `remove_cv<T>`
      against `int`, but every other disjunct tests a fixed type against
      itself, such as `remove_cv<short>` against `short`. */
  predicate IsIntegralAsWritten(t: Ty)
    ensures IsIntegralAsWritten(t)
  {
    || IsSame(RemoveCv(t), Prim(Int))
    || IsSame(RemoveCv(Prim(Short)), Prim(Short))
    || IsSame(RemoveCv(Prim(Bool)), Prim(Bool))
    || IsSame(RemoveCv(Prim(Char)), Prim(Char))
    || IsSame(RemoveCv(Prim(Char16)), Prim(Char16))
    || IsSame(RemoveCv(Prim(Char32)), Prim(Char32))
    || IsSame(RemoveCv(Prim(WChar)), Prim(WChar))
    || IsSame(RemoveCv(Prim(Long)), Prim(Long))
    || IsSame(RemoveCv(Prim(LongLong)), Prim(LongLong))
  }

  /** The integral kinds the trait lists. */
  predicate IntegralKind(k: Fundamental)
  {
    k in {Int, Short, Bool, Char, Char16, Char32, WChar, Long, LongLong}
  }

  /** `is_integral` as intended: `remove_cv<T>` is one of the listed
      integral types. */
  predicate IsIntegral(t: Ty)
    ensures IsIntegral(t) <==>
              RemoveCv(t) in {Prim(Bool), Prim(Char), Prim(Char16), Prim(Char32), Prim(WChar),
                              Prim(Short), Prim(Int), Prim(Long), Prim(LongLong)}
  {
    RemoveCv(t).Prim? && IntegralKind(RemoveCv(t).kind)
  }

  /** `is_floating_point`: `remove_cv<T>` is `float`, `double` or `long double`. */
  predicate IsFloatingPoint(t: Ty)
    ensures IsFloatingPoint(t) <==> RemoveCv(t) in {Prim(Float), Prim(Double), Prim(LongDouble)}
    ensures IsFloatingPoint(t) ==> RemoveCv(t).Prim? && !IntegralKind(RemoveCv(t).kind)
    ensures IsFloatingPoint(t) ==> !IsVoid(t) && !IsNullPointer(t)
  {
    || IsSame(RemoveCv(t), Prim(Float))
    || IsSame(RemoveCv(t), Prim(Double))
    || IsSame(RemoveCv(t), Prim(LongDouble))
  }

  /** `is_arithmetic` as written, on top of `is_integral` as written. */
  predicate IsArithmeticAsWritten(t: Ty)
    ensures IsArithmeticAsWritten(t)
  {
    IsIntegralAsWritten(t) || IsFloatingPoint(t)
  }

  /** `is_arithmetic` as intended. */
  predicate IsArithmetic(t: Ty)
    ensures IsArithmetic(t) <==> RemoveCv(t).Prim? && RemoveCv(t).kind !in {Void, NullPtr}
  {
    assert RemoveCv(t).Prim? ==>
             match RemoveCv(t).kind
             case Void => true
             case NullPtr => true
             case Float => IsFloatingPoint(t)
             case Double => IsFloatingPoint(t)
             case LongDouble => IsFloatingPoint(t)
             case _ => IsIntegral(t);
    IsIntegral(t) || IsFloatingPoint(t)
  }

  /** `is_fundamental` as written: arithmetic, `void` or `nullptr_t`. */
  predicate IsFundamentalAsWritten(t: Ty)
    ensures IsFundamentalAsWritten(t)
  {
    IsArithmeticAsWritten(t) || IsVoid(t) || IsSame(Prim(NullPtr), RemoveCv(t))
  }

  /** `is_fundamental` as intended. */
  predicate IsFundamental(t: Ty)
    ensures IsFundamental(t) <==> RemoveCv(t).Prim?
  {
    IsArithmetic(t) || IsVoid(t) || IsSame(Prim(NullPtr), RemoveCv(t))
  }

  /** `is_compound` as written: not fundamental. */
  predicate IsCompoundAsWritten(t: Ty)
    ensures !IsCompoundAsWritten(t)
  {
    !IsFundamentalAsWritten(t)
  }

  /** `is_compound` as intended. */
  predicate IsCompound(t: Ty)
    ensures WellFormed(t) ==> (IsCompound(t) <==> RemoveCv(t).Class? || RemoveCv(t).Ptr? || IsRef(t))
  {
    !IsFundamental(t)
  }

  /** As written, every type is integral, arithmetic and fundamental, and no
      type is compound: `float*` and `int&` included. */
  lemma IsIntegralAsWrittenAlwaysTrue(t: Ty)
    ensures IsIntegralAsWritten(t)
    ensures IsArithmeticAsWritten(t) && IsFundamentalAsWritten(t)
    ensures !IsCompoundAsWritten(t)
  {
  }

  /** `float` shows the difference: integral as written, not integral as
      intended; `int*` is fundamental as written but compound as intended. */
  lemma IsIntegralCounterexample()
    ensures IsIntegralAsWritten(Prim(Float)) && !IsIntegral(Prim(Float))
    ensures !IsCompoundAsWritten(Ptr(Prim(Int))) && IsCompound(Ptr(Prim(Int)))
  {
  }

  /** The intended classification: a type without qualifiers is fundamental
      exactly when it is one of the fundamental types, and compound exactly
      when it is a class, pointer or reference; integral and floating-point
      types are disjoint; qualifiers change nothing. */
  lemma ClassificationSpec(c: bool, v: bool, t: Ty)
    requires WellFormed(t)
    ensures !t.Cv? ==> (IsFundamental(t) <==> t.Prim?)
    ensures !t.Cv? ==> (IsCompound(t) <==> t.Class? || t.Ptr? || IsRef(t))
    ensures !(IsIntegral(t) && IsFloatingPoint(t))
    ensures IsIntegral(Qualify(c, v, t)) == IsIntegral(t)
    ensures IsArithmetic(Qualify(c, v, t)) == IsArithmetic(t)
    ensures IsFundamental(Qualify(c, v, t)) == IsFundamental(t)
  {
    if t.Prim? {
      match t.kind
      case Float => assert IsFloatingPoint(t);
      case Double => assert IsFloatingPoint(t);
      case LongDouble => assert IsFloatingPoint(t);
      case Void => assert IsVoid(t);
      case NullPtr => assert IsSame(Prim(NullPtr), RemoveCv(t));
      case _ => assert IntegralKind(t.kind);
    }
  }
}
