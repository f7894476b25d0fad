/**
 * Java classes and runtime values, as far as the modelled code inspects them.
 * Reflection is replaced by explicit data: a class is its name, a field's declared
 * type is classified into a TypeKind, and the class hierarchy is a table.
 */
module JavaTypes {
  import opened JavaText

  type ClassName = string

  /** The eight primitive types of Java. */
  datatype Primitive = Boolean | Byte | Short | Char | Int | Long | Float | Double

  /** The classification of a class that the modelled code distinguishes. */
  datatype TypeKind =
    | Prim(p: Primitive)              // boolean.class, int.class, ...
    | Boxed(p: Primitive)             // java.lang.Boolean, java.lang.Integer, ...
    | Str                             // java.lang.String
    | UtilDate                        // java.util.Date
    | SqlDate                         // java.sql.Date
    | OtherNumber(name: ClassName)    // java.lang.Number or another subclass of it
    | Other(name: ClassName)          // any other class

  function PrimitiveName(p: Primitive): string
  {
    match p
    case Boolean => "boolean"
    case Byte => "byte"
    case Short => "short"
    case Char => "char"
    case Int => "int"
    case Long => "long"
    case Float => "float"
    case Double => "double"
  }

  function WrapperName(p: Primitive): string
  {
    match p
    case Boolean => "java.lang.Boolean"
    case Byte => "java.lang.Byte"
    case Short => "java.lang.Short"
    case Char => "java.lang.Character"
    case Int => "java.lang.Integer"
    case Long => "java.lang.Long"
    case Float => "java.lang.Float"
    case Double => "java.lang.Double"
  }

  /** Class.getName of a classified class. */
  function ClassNameOf(k: TypeKind): ClassName
  {
    match k
    case Prim(p) => PrimitiveName(p)
    case Boxed(p) => WrapperName(p)
    case Str => "java.lang.String"
    case UtilDate => "java.util.Date"
    case SqlDate => "java.sql.Date"
    case OtherNumber(n) => n
    case Other(n) => n
  }

  /**
   * Class.getSimpleName of a top-level class: its name after the last '.', the whole
   * name for a class in the default package.
   */
  function SimpleName(c: ClassName): (r: string)
    ensures '.' !in r && |r| <= |c| && r == c[|c| - |r|..]
    ensures |r| < |c| ==> c[|c| - |r| - 1] == '.'
    decreases |c|
  {
    if c == [] || c[|c| - 1] == '.' then []
    else
      var init := SimpleName(c[..|c| - 1]);
      assert c[..|c| - 1][|c| - 1 - |init|..] + [c[|c| - 1]] == c[|c| - |init| - 1..];
      init + [c[|c| - 1]]
  }

  /** The simple name of a class in a package is the part after the package. */
  lemma {:induction false} SimpleNameInPackage(package: string, simple: string)
    requires '.' !in simple
    ensures SimpleName(package + "." + simple) == simple
    decreases |simple|
  {
    var c := package + "." + simple;
    if simple == [] {
      assert c[|c| - 1] == '.';
    } else {
      var init := simple[..|simple| - 1];
      assert c[..|c| - 1] == package + "." + init;
      SimpleNameInPackage(package, init);
      assert init + [simple[|simple| - 1]] == simple;
    }
  }

  /**
   * A Java object reference. Boxed integers carry their numeric value; floating-point
   * numbers and other objects are VObj values carrying their class and their toString.
   */
  datatype Value =
    | Null
    | VBool(b: bool)
    | VChar(c: char)
    | VByte(i: int)
    | VShort(i: int)
    | VInt(i: int)
    | VLong(i: int)
    | VStr(s: string)
    | VObj(kind: TypeKind, text: string)

  /** Object.getClass, classified. Runtime objects are never of a primitive class. */
  function ClassOf(v: Value): (k: TypeKind)
    requires !v.Null?
    requires v.VObj? ==> !v.kind.Prim?
    ensures !k.Prim?
  {
    match v
    case VBool(_) => Boxed(Boolean)
    case VChar(_) => Boxed(Char)
    case VByte(_) => Boxed(Byte)
    case VShort(_) => Boxed(Short)
    case VInt(_) => Boxed(Int)
    case VLong(_) => Boxed(Long)
    case VStr(_) => Str
    case VObj(k, _) => k
  }

  /** A value whose VObj class is not a primitive class, as every Java object is. */
  predicate IsObject(v: Value)
  {
    v.VObj? ==> !v.kind.Prim?
  }

  /** A value a variable of type Object can hold. */
  type ObjectValue = v: Value | IsObject(v) witness Null

  /** Object.toString. */
  function ToString(v: Value): string
    requires !v.Null?
  {
    match v
    case VBool(b) => if b then "true" else "false"
    case VChar(c) => [c]
    case VByte(i) => IntToString(i)
    case VShort(i) => IntToString(i)
    case VInt(i) => IntToString(i)
    case VLong(i) => IntToString(i)
    case VStr(s) => s
    case VObj(_, t) => t
  }

  /**
   * What Class.getSuperclass (repeatedly, nearest first) and Class.getInterfaces
   * return for one class.
   */
  datatype ClassInfo = ClassInfo(superclasses: seq<ClassName>, interfaces: seq<ClassName>)

  type Hierarchy = map<ClassName, ClassInfo>

  /** A class the table does not list has no superclass and no interface. */
  function Info(h: Hierarchy, c: ClassName): ClassInfo
  {
    if c in h then h[c] else ClassInfo([], [])
  }

  /** Class.isAssignableFrom for a target that is a class (not an interface). */
  predicate IsSubclassOf(h: Hierarchy, c: ClassName, target: ClassName)
  {
    c == target || target in Info(h, c).superclasses
  }

  /**
   * Class.isAssignableFrom: the same class, or (for reference types) a superclass or an
   * interface listed for the source class. A primitive class is assignable only from itself.
   */
  predicate IsAssignableFrom(h: Hierarchy, target: TypeKind, source: TypeKind)
  {
    target == source
    || (!target.Prim? && !source.Prim?
        && (ClassNameOf(target) in Info(h, ClassNameOf(source)).superclasses
            || ClassNameOf(target) in Info(h, ClassNameOf(source)).interfaces))
  }

  /** The wrapper classes are final and unrelated: none is assignable from another. */
  predicate WrappersUnrelated(h: Hierarchy)
  {
    forall p: Primitive, q: Primitive :: p != q ==> !IsAssignableFrom(h, Boxed(p), Boxed(q))
  }
}
