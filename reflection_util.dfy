/**
 * ReflectionUtil: the primitive/wrapper tables, the classification predicates,
 * the boxing helpers and the collection of a class's fields along its superclasses.
 */
module ReflectionUtil {
  import opened Wrappers
  import opened JavaTypes

  /** primitiveMap, filled by the static initialiser: each primitive to its wrapper. */
  const PrimitiveMap: map<TypeKind, TypeKind> :=
    map[
      Prim(Boolean) := Boxed(Boolean),
      Prim(Byte) := Boxed(Byte),
      Prim(Short) := Boxed(Short),
      Prim(Char) := Boxed(Char),
      Prim(Int) := Boxed(Int),
      Prim(Long) := Boxed(Long),
      Prim(Float) := Boxed(Float),
      Prim(Double) := Boxed(Double)
    ]

  /** primiviteMethods: the Number accessor used to unbox into each numeric primitive. */
  const PrimitiveMethods: map<TypeKind, string> :=
    map[
      Prim(Byte) := "byteValue",
      Prim(Short) := "shortValue",
      Prim(Int) := "intValue",
      Prim(Long) := "longValue",
      Prim(Float) := "floatValue",
      Prim(Double) := "doubleValue"
    ]

  predicate IsNumericPrimitive(p: Primitive)
  {
    p != Boolean && p != Char
  }

  /** primitiveMap pairs every primitive with its own wrapper and nothing else. */
  lemma PrimitiveMapIsBijection()
    ensures PrimitiveMap.Keys == set p: Primitive | true :: Prim(p)
    ensures PrimitiveMap.Values == set p: Primitive | true :: Boxed(p)
    ensures forall k :: k in PrimitiveMap ==> PrimitiveMap[k] == Boxed(k.p)
    ensures forall k1, k2 :: k1 in PrimitiveMap && k2 in PrimitiveMap && PrimitiveMap[k1] == PrimitiveMap[k2] ==> k1 == k2
  {
    PrimitiveMapKeys();
    PrimitiveMapPairs();
    PrimitiveMapValues();
  }

  lemma PrimitiveMapKeys()
    ensures PrimitiveMap.Keys == set p: Primitive | true :: Prim(p)
  {
    forall k | k in set p: Primitive | true :: Prim(p) ensures k in PrimitiveMap {
      match k.p
      case Boolean => case Byte => case Short => case Char =>
      case Int => case Long => case Float => case Double =>
    }
  }

  lemma PrimitiveMapPairs()
    ensures forall k :: k in PrimitiveMap ==> k.Prim? && PrimitiveMap[k] == Boxed(k.p)
  {
    forall k | k in PrimitiveMap ensures k.Prim? && PrimitiveMap[k] == Boxed(k.p) {
      assert k in PrimitiveMap.Keys;
      assert k == Prim(Boolean) || k == Prim(Byte) || k == Prim(Short) || k == Prim(Char)
        || k == Prim(Int) || k == Prim(Long) || k == Prim(Float) || k == Prim(Double);
    }
  }

  lemma PrimitiveMapValues()
    ensures PrimitiveMap.Values == set p: Primitive | true :: Boxed(p)
  {
    PrimitiveMapKeys();
    PrimitiveMapPairs();
    forall v | v in set p: Primitive | true :: Boxed(p) ensures v in PrimitiveMap.Values {
      assert Prim(v.p) in PrimitiveMap;
      assert PrimitiveMap[Prim(v.p)] == v;
    }
  }

  /** primiviteMethods covers exactly the six numeric primitives. */
  lemma PrimitiveMethodsCoverNumericPrimitives()
    ensures forall k: TypeKind :: k in PrimitiveMethods <==> k.Prim? && IsNumericPrimitive(k.p)
  {
    forall k: TypeKind | k.Prim? && IsNumericPrimitive(k.p) ensures k in PrimitiveMethods {
      match k.p
      case Byte => case Short => case Int => case Long => case Float => case Double =>
    }
  }

  /** isPrimitiveClass: Class.isPrimitive. */
  predicate IsPrimitiveClass(k: TypeKind)
  {
    k.Prim?
  }

  /** isWrapperClass: one of the values of primitiveMap. */
  predicate IsWrapperClass(k: TypeKind)
  {
    k in PrimitiveMap.Values
  }

  lemma WrapperClasses(k: TypeKind)
    ensures IsWrapperClass(k) <==> k.Boxed?
  {
    PrimitiveMapIsBijection();
    if k.Boxed? {
      assert PrimitiveMap[Prim(k.p)] == k;
    }
  }

  /** Number.class.isAssignableFrom(type). */
  predicate NumberAssignableFrom(k: TypeKind)
  {
    k.OtherNumber? || (k.Boxed? && IsNumericPrimitive(k.p))
  }

  /**
   * isNumber: a Number subtype, or one of byte, short, int, float, long, double
   * (X.class.isAssignableFrom on a primitive class holds only for that class itself).
   */
  predicate IsNumber(k: TypeKind)
  {
    NumberAssignableFrom(k)
    || k == Prim(Byte) || k == Prim(Short) || k == Prim(Int)
    || k == Prim(Float) || k == Prim(Long) || k == Prim(Double)
  }

  /** The classification isNumber gives: numeric primitives and wrappers, and Number subclasses. */
  lemma IsNumberExactly(k: TypeKind)
    ensures IsNumber(k) <==> k.OtherNumber? || ((k.Prim? || k.Boxed?) && IsNumericPrimitive(k.p))
  {
    if k.Prim? && IsNumericPrimitive(k.p) {
      match k.p
      case Byte => case Short => case Int => case Long => case Float => case Double =>
    }
  }

  /**
   * primitiveToWrapper on a runtime object. Wrapper objects come back unchanged. For any
   * other object primitiveMap has no entry, so the reflective valueOf call dereferences
   * null.
   */
  function PrimitiveToWrapper(v: Value): (r: Result<Value>)
    requires IsObject(v)
    ensures !v.Null? && IsWrapperClass(ClassOf(v)) ==> r == Ok(v)
    ensures !v.Null? && !IsWrapperClass(ClassOf(v)) ==> r == Err(NullPointer)
  {
    if v.Null? then Err(NullPointer)
    else if IsWrapperClass(ClassOf(v)) then Ok(v)
    else if ClassOf(v) in PrimitiveMap then Ok(v)
    else if ClassOf(v) == Prim(Char) then Ok(v)
    else Err(NullPointer)
  }

  /**
   * wrapperToPrimitive on a runtime object. A runtime class is never primitive, so
   * primiviteMethods (keyed by primitive classes) never matches; Boolean and Character are
   * unboxed and boxed again by the return; every other value comes back as it was.
   */
  function WrapperToPrimitive(v: Value): (r: Result<Value>)
    requires IsObject(v)
    ensures v.Null? ==> r == Err(NullPointer)
    ensures !v.Null? ==> r == Ok(v)
  {
    if v.Null? then Err(NullPointer)
    else if IsPrimitiveClass(ClassOf(v)) then Ok(v)
    else if ClassOf(v) in PrimitiveMethods then Ok(v)
    else if v.VBool? then Ok(VBool(v.b))
    else if v.VChar? then Ok(VChar(v.c))
    else Ok(v)
  }

  /** Concatenation of a sequence of field lists. */
  function Flatten<F>(xs: seq<seq<F>>): seq<F>
  {
    if xs == [] then [] else Flatten(xs[..|xs| - 1]) + xs[|xs| - 1]
  }

  /** The declared fields of a class and then of each superclass, nearest first. */
  function AllFields<F>(h: Hierarchy, declared: map<ClassName, seq<F>>, c: ClassName): seq<F>
  {
    var chain := [c] + Info(h, c).superclasses;
    Flatten(seq(|chain|, i requires 0 <= i < |chain| => DeclaredFields(declared, chain[i])))
  }

  function DeclaredFields<F>(declared: map<ClassName, seq<F>>, c: ClassName): seq<F>
  {
    if c in declared then declared[c] else []
  }

  /** The class's own fields come first, in declaration order. */
  lemma {:induction false} AllFieldsStartWithOwn<F>(h: Hierarchy, declared: map<ClassName, seq<F>>, c: ClassName)
    ensures var all := AllFields(h, declared, c);
      |DeclaredFields(declared, c)| <= |all| && all[..|DeclaredFields(declared, c)|] == DeclaredFields(declared, c)
  {
    var chain := [c] + Info(h, c).superclasses;
    var xs := seq(|chain|, i requires 0 <= i < |chain| => DeclaredFields(declared, chain[i]));
    FlattenStartsWithFirst(xs);
  }

  lemma {:induction false} FlattenStartsWithFirst<F>(xs: seq<seq<F>>)
    requires xs != []
    ensures |xs[0]| <= |Flatten(xs)| && Flatten(xs)[..|xs[0]|] == xs[0]
  {
    if |xs| > 1 {
      FlattenStartsWithFirst(xs[..|xs| - 1]);
      assert xs[..|xs| - 1][0] == xs[0];
    } else {
      assert xs[..|xs| - 1] == [];
    }
  }

  /**
   * getAllFields: starts with the class's declared fields and appends the declared
   * fields of each superclass while walking up.
   */
  method GetAllFields<F>(h: Hierarchy, declared: map<ClassName, seq<F>>, c: ClassName) returns (fields: seq<F>)
    ensures fields == AllFields(h, declared, c)
  {
    var chain := [c] + Info(h, c).superclasses;
    ghost var xs := seq(|chain|, i requires 0 <= i < |chain| => DeclaredFields(declared, chain[i]));
    fields := DeclaredFields(declared, c);
    assert xs[..1] == [xs[0]];
    assert Flatten(xs[..1]) == fields by {
      assert xs[..1][..0] == [];
    }
    var k := 1;
    while k < |chain|
      invariant 1 <= k <= |chain|
      invariant fields == Flatten(xs[..k])
    {
      fields := fields + DeclaredFields(declared, chain[k]);
      assert xs[..k + 1][..k] == xs[..k];
      k := k + 1;
    }
    assert xs[..|chain|] == xs;
  }
}
