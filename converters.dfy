/**
 * The SqlObjectConverter registry of AbstractTable (a static map from database class to
 * object class to converter), the converter lookup along interfaces and superclasses,
 * and toSqlValue, which renders a Java value as a SQL literal.
 */
module SqlConverters {
  import opened Wrappers
  import opened JavaText
  import opened JavaTypes
  import opened ReflectionUtil
  import opened Database

  /** A registered SqlObjectConverter, compared by identity. */
  datatype Converter = Converter(id: nat)

  type ConverterMap = map<ClassName, Converter>
  type Providers = map<ClassName, ConverterMap>

  /** The database class and its superclasses, nearest first: the walk getSqlConverter recurses along. */
  function DbChain(h: Hierarchy, db: ClassName): (r: seq<ClassName>)
    ensures r != [] && r[0] == db
  {
    [db] + Info(h, db).superclasses
  }

  /** Every key of the registry is Database or a subclass of it. */
  ghost predicate KeysAreDatabaseTypes(h: Hierarchy, providers: Providers)
  {
    forall db :: db in providers ==> IsSubclassOf(h, db, DatabaseClass)
  }

  /**
   * registerSqlConverter: rejects a database type that is not a Database, and a second
   * converter for the same pair; otherwise adds the converter. A rejected call changes nothing.
   */
  function Register(h: Hierarchy, providers: Providers, dbType: ClassName, objType: ClassName, c: Converter): (r: Result<Providers>)
    ensures r.Ok? ==> dbType in r.value && r.value[dbType] == (if dbType in providers then providers[dbType] else map[])[objType := c]
    ensures r.Ok? ==> forall d :: d in providers && d != dbType ==> d in r.value && r.value[d] == providers[d]
    ensures r.Ok? ==> r.value.Keys == providers.Keys + {dbType}
  {
    if !IsSubclassOf(h, dbType, DatabaseClass) then
      Err(ClassCast("Can't cast class \"" + dbType + "\" to \"" + DatabaseClass + "\"!"))
    else
      var convs := if dbType in providers then providers[dbType] else map[];
      if objType in convs then
        Err(IllegalState("Class \"" + SimpleName(objType) + "\" already has a sql converter for database type: \"" + SimpleName(dbType) + "\""))
      else
        Ok(providers[dbType := convs[objType := c]])
  }

  /** Registration is refused exactly for a non-Database type or an already registered pair. */
  lemma RegisterFailsIff(h: Hierarchy, providers: Providers, dbType: ClassName, objType: ClassName, c: Converter)
    ensures Register(h, providers, dbType, objType, c).Err? <==>
      !IsSubclassOf(h, dbType, DatabaseClass) || (dbType in providers && objType in providers[dbType])
    ensures Register(h, providers, dbType, objType, c).Err? && !IsSubclassOf(h, dbType, DatabaseClass) ==>
      Register(h, providers, dbType, objType, c).error.ClassCast?
  {
  }

  /** Registration keeps every key a Database type. */
  lemma RegisterKeepsDatabaseKeys(h: Hierarchy, providers: Providers, dbType: ClassName, objType: ClassName, c: Converter)
    requires KeysAreDatabaseTypes(h, providers)
    requires Register(h, providers, dbType, objType, c).Ok?
    ensures KeysAreDatabaseTypes(h, Register(h, providers, dbType, objType, c).value)
  {
  }

  /** The direct interfaces of the object class that have a converter, in getInterfaces order. */
  function InterfaceMatches(ifaces: seq<ClassName>, convs: ConverterMap): (r: seq<ClassName>)
    ensures forall i :: 0 <= i < |r| ==> r[i] in convs && r[i] in ifaces
  {
    if ifaces == [] then []
    else
      var last := ifaces[|ifaces| - 1];
      InterfaceMatches(ifaces[..|ifaces| - 1], convs) + (if last in convs then [last] else [])
  }

  /** The nearest superclass that has a converter. */
  function FirstRegistered(supers: seq<ClassName>, convs: ConverterMap): (r: Option<ClassName>)
    ensures r.Some? ==> r.value in convs && r.value in supers
    ensures r.None? ==> forall i :: 0 <= i < |supers| ==> supers[i] !in convs
  {
    if supers == [] then None
    else if supers[0] in convs then Some(supers[0])
    else FirstRegistered(supers[1..], convs)
  }

  /**
   * The search within one database type's converters: the exact class, then a unique
   * matching direct interface (several are an error), then the nearest superclass.
   */
  function FindInMap(h: Hierarchy, dbType: ClassName, convs: ConverterMap, obj: ClassName): Result<Option<Converter>>
  {
    if obj in convs then Ok(Some(convs[obj]))
    else
      var matches := InterfaceMatches(Info(h, obj).interfaces, convs);
      if |matches| > 1 then
        Err(IllegalState("Found multiple possible SqlObjectConverters for class: " + SimpleName(obj)
          + " in database: " + SimpleName(dbType)))
      else if |matches| == 1 then Ok(Some(convs[matches[0]]))
      else
        var sup := FirstRegistered(Info(h, obj).superclasses, convs);
        if sup.Some? then Ok(Some(convs[sup.value])) else Ok(None)
  }

  /**
   * getSqlConverter(chain[0], obj): the search in chain[0]'s converters; when it finds
   * nothing, the same search for the superclass, as long as the type is Database itself
   * or its superclass is still a Database.
   */
  function FindConverter(h: Hierarchy, providers: Providers, chain: seq<ClassName>, obj: ClassName): Result<Option<Converter>>
    requires chain != []
    decreases |chain|
  {
    var here := if chain[0] in providers then FindInMap(h, chain[0], providers[chain[0]], obj) else Ok(None);
    if here.Err? || here.value.Some? then here
    else if |chain| > 1 && (chain[0] == DatabaseClass || DatabaseClass in chain[1..]) then
      FindConverter(h, providers, chain[1..], obj)
    else Ok(None)
  }

  /** A converter registered for the exact pair is the one found. */
  lemma FindExact(h: Hierarchy, providers: Providers, chain: seq<ClassName>, obj: ClassName)
    requires chain != [] && chain[0] in providers && obj in providers[chain[0]]
    ensures FindConverter(h, providers, chain, obj) == Ok(Some(providers[chain[0]][obj]))
  {
  }

  /** Two matching direct interfaces and no exact match make the lookup throw. */
  lemma FindAmbiguousInterfaces(h: Hierarchy, providers: Providers, chain: seq<ClassName>, obj: ClassName)
    requires chain != [] && chain[0] in providers && obj !in providers[chain[0]]
    requires |InterfaceMatches(Info(h, obj).interfaces, providers[chain[0]])| >= 2
    ensures FindConverter(h, providers, chain, obj).Err?
    ensures FindConverter(h, providers, chain, obj).error.IllegalState?
    ensures FindConverter(h, providers, chain, obj).error.reason
      == "Found multiple possible SqlObjectConverters for class: " + SimpleName(obj) + " in database: " + SimpleName(chain[0])
  {
  }

  /**
   * The duplicate-registration message names both classes by their simple names: a
   * second converter for java.lang.Integer on a database class p.MySqlDatabase names
   * Integer and MySqlDatabase, not their packages.
   */
  lemma DuplicateNamesSimpleClasses(h: Hierarchy, providers: Providers, dbPackage: string, dbSimple: string,
                                    objPackage: string, objSimple: string, c: Converter)
    requires '.' !in dbSimple && '.' !in objSimple
    requires IsSubclassOf(h, dbPackage + "." + dbSimple, DatabaseClass)
    requires dbPackage + "." + dbSimple in providers && objPackage + "." + objSimple in providers[dbPackage + "." + dbSimple]
    ensures Register(h, providers, dbPackage + "." + dbSimple, objPackage + "." + objSimple, c)
      == Err(IllegalState("Class \"" + objSimple + "\" already has a sql converter for database type: \"" + dbSimple + "\""))
  {
    SimpleNameInPackage(objPackage, objSimple);
    SimpleNameInPackage(dbPackage, dbSimple);
  }

  /**
   * Converters registered for a supertype of the database are inherited: when no type
   * before position k has a converter map and Database lies at or after position k - 1,
   * the lookup is the lookup in chain[k]'s converters.
   */
  lemma {:induction false} FindInheritedFromDatabaseSupertype(h: Hierarchy, providers: Providers, chain: seq<ClassName>, obj: ClassName, k: nat)
    requires k < |chain|
    requires forall j :: 0 <= j < k ==> chain[j] !in providers
    requires k == 0 || DatabaseClass in chain[k - 1..]
    ensures FindConverter(h, providers, chain, obj) == FindConverter(h, providers, chain[k..], obj)
  {
    if k > 0 {
      assert chain[0] !in providers;
      assert chain[0] == DatabaseClass || DatabaseClass in chain[1..] by {
        var i :| k - 1 <= i < |chain| && chain[i] == DatabaseClass;
        if i > 0 {
          assert chain[1..][i - 1] == DatabaseClass;
        }
      }
      var rest := chain[1..];
      forall j | 0 <= j < k - 1 ensures rest[j] !in providers {
        assert rest[j] == chain[j + 1];
      }
      assert k - 1 == 0 || DatabaseClass in rest[k - 2..] by {
        if k > 1 {
          assert rest[k - 2..] == chain[k - 1..];
        }
      }
      FindInheritedFromDatabaseSupertype(h, providers, rest, obj, k - 1);
      assert rest[k - 1..] == chain[k..];
    }
  }

  /** Whatever the lookup returns was registered for the database type or one of its superclasses. */
  lemma {:induction false} FindIsRegistered(h: Hierarchy, providers: Providers, chain: seq<ClassName>, obj: ClassName)
    requires chain != []
    requires FindConverter(h, providers, chain, obj).Ok? && FindConverter(h, providers, chain, obj).value.Some?
    ensures exists k :: (0 <= k < |chain| && chain[k] in providers
      && FindConverter(h, providers, chain, obj).value.value in providers[chain[k]].Values)
  {
    var c := FindConverter(h, providers, chain, obj).value.value;
    if chain[0] in providers && FindInMap(h, chain[0], providers[chain[0]], obj).Ok? && FindInMap(h, chain[0], providers[chain[0]], obj).value.Some? {
      var convs := providers[chain[0]];
      var matches := InterfaceMatches(Info(h, obj).interfaces, convs);
      if obj in convs {
        assert convs[obj] in convs.Values;
      } else if |matches| == 1 {
        assert convs[matches[0]] in convs.Values;
      } else {
        var sup := FirstRegistered(Info(h, obj).superclasses, convs);
        assert convs[sup.value] in convs.Values;
      }
      assert chain[0] in providers && c in providers[chain[0]].Values;
    } else {
      FindIsRegistered(h, providers, chain[1..], obj);
      var k :| 0 <= k < |chain[1..]| && chain[1..][k] in providers && c in providers[chain[1..][k]].Values;
      assert chain[k + 1] == chain[1..][k];
    }
  }

  /** After a successful registration, looking up that very pair finds the new converter. */
  lemma RegisterThenFind(h: Hierarchy, providers: Providers, dbType: ClassName, objType: ClassName, c: Converter)
    requires Register(h, providers, dbType, objType, c).Ok?
    ensures FindConverter(h, Register(h, providers, dbType, objType, c).value, DbChain(h, dbType), objType) == Ok(Some(c))
  {
  }

  /** Calls into a registered converter: SqlObjectConverter.convert(database, value, strict). */
  type ConvertFunction = (Converter, ClassName, Value, bool) -> Option<string>

  /**
   * The static registry, the class table it consults and what the registered converter
   * objects compute.
   */
  class ConverterRegistry {
    const hierarchy: Hierarchy
    const convert: ConvertFunction
    var providers: Providers

    ghost predicate Valid()
      reads this
    {
      KeysAreDatabaseTypes(hierarchy, providers)
    }

    constructor (h: Hierarchy, convert: ConvertFunction)
      ensures Valid() && hierarchy == h && this.convert == convert && providers == map[]
    {
      hierarchy := h;
      this.convert := convert;
      providers := map[];
    }

    /** AbstractTable.registerSqlConverter. */
    method RegisterSqlConverter(dbType: ClassName, objType: ClassName, c: Converter) returns (r: Result<()>)
      requires Valid()
      modifies this
      ensures Valid()
      ensures var expected := Register(hierarchy, old(providers), dbType, objType, c);
        (expected.Ok? ==> r == Ok(()) && providers == expected.value)
        && (expected.Err? ==> r == Err(expected.error) && providers == old(providers))
    {
      if !IsSubclassOf(hierarchy, dbType, DatabaseClass) {
        return Err(ClassCast("Can't cast class \"" + dbType + "\" to \"" + DatabaseClass + "\"!"));
      }
      var convs := if dbType in providers then providers[dbType] else map[];
      if objType in convs {
        return Err(IllegalState("Class \"" + SimpleName(objType) + "\" already has a sql converter for database type: \"" + SimpleName(dbType) + "\""));
      }
      providers := providers[dbType := convs[objType := c]];
      r := Ok(());
    }

    /** AbstractTable.getSqlConverter, following the source's loops and its recursion. */
    method GetSqlConverter(dbType: ClassName, obj: ClassName) returns (r: Result<Option<Converter>>)
      ensures r == FindConverter(hierarchy, providers, DbChain(hierarchy, dbType), obj)
    {
      var chain := DbChain(hierarchy, dbType);
      r := GetSqlConverterFrom(chain, 0, obj);
      assert chain[0..] == chain;
    }

    method GetSqlConverterFrom(chain: seq<ClassName>, k: nat, obj: ClassName) returns (r: Result<Option<Converter>>)
      requires k < |chain|
      ensures r == FindConverter(hierarchy, providers, chain[k..], obj)
      decreases |chain| - k
    {
      var dbType := chain[k];
      if dbType in providers {
        r := SearchConverters(dbType, providers[dbType], obj);
        if r.Err? || r.value.Some? {
          return;
        }
      }
      if k + 1 < |chain| && (dbType == DatabaseClass || DatabaseClass in chain[k + 1..]) {
        assert chain[k..][1..] == chain[k + 1..];
        r := GetSqlConverterFrom(chain, k + 1, obj);
        return;
      }
      return Ok(None);
    }

    /** The loops of getSqlConverter over one database type's converters. */
    method SearchConverters(dbType: ClassName, convs: ConverterMap, obj: ClassName) returns (r: Result<Option<Converter>>)
      ensures r == FindInMap(hierarchy, dbType, convs, obj)
    {
      if obj in convs {
        return Ok(Some(convs[obj]));
      }
      var ifaces := Info(hierarchy, obj).interfaces;
      var matched := obj;
      var found := 0;
      var i := 0;
      while i < |ifaces|
        invariant 0 <= i <= |ifaces|
        invariant found == |InterfaceMatches(ifaces[..i], convs)|
        invariant found > 0 ==> matched == InterfaceMatches(ifaces[..i], convs)[found - 1]
        invariant found == 0 ==> matched == obj
      {
        assert ifaces[..i + 1][..i] == ifaces[..i];
        if ifaces[i] in convs {
          found := found + 1;
          matched := ifaces[i];
        }
        i := i + 1;
      }
      assert ifaces[..|ifaces|] == ifaces;
      if found > 0 {
        if found > 1 {
          return Err(IllegalState("Found multiple possible SqlObjectConverters for class: " + SimpleName(obj)
            + " in database: " + SimpleName(dbType)));
        }
        return Ok(Some(convs[matched]));
      }
      var supers := Info(hierarchy, obj).superclasses;
      var j := 0;
      while j < |supers| && supers[j] !in convs
        invariant 0 <= j <= |supers|
        invariant FirstRegistered(supers, convs) == FirstRegistered(supers[j..], convs)
      {
        assert supers[j..][1..] == supers[j + 1..];
        j := j + 1;
      }
      if j < |supers| {
        return Ok(Some(convs[supers[j]]));
      }
      return Ok(None);
    }
  }

  /**
   * toSqlValue(o, strict) for a table whose database is of class dbClass. Null has no class
   * and is dereferenced; a converter wins; otherwise, unless strict, the string "?" stays a
   * placeholder and the string "null" (any case) becomes null; wrapper values print as they
   * are and everything else becomes a quoted string literal.
   */
  function ToSqlValue(h: Hierarchy, providers: Providers, convert: ConvertFunction, dbClass: ClassName, o: Value, strict: bool): (r: Result<Option<string>>)
    requires IsObject(o)
    ensures o.Null? ==> r == Err(NullPointer)
  {
    if o.Null? then Err(NullPointer)
    else
      var found := FindConverter(h, providers, DbChain(h, dbClass), ClassNameOf(ClassOf(o)));
      if found.Err? then Err(found.error)
      else if found.value.Some? then Ok(convert(found.value.value, dbClass, o, strict))
      else if o.VStr? && o.s == "?" && !strict then Ok(Some(o.s))
      else if o.VStr? && EqualsIgnoreCase(o.s, "null") && !strict then Ok(None)
      else if IsPrimitiveClass(ClassOf(o)) || IsWrapperClass(ClassOf(o)) then Ok(Some(ToString(o)))
      else Ok(Stringify(Some(ToString(o))))
  }

  /**
   * Without a converter, a string is rendered as one SQL string literal holding exactly
   * that string, unless (non-strict) it is the placeholder "?" or the word null.
   */
  lemma StringBecomesLiteral(h: Hierarchy, providers: Providers, convert: ConvertFunction, dbClass: ClassName, s: string, strict: bool)
    requires FindConverter(h, providers, DbChain(h, dbClass), ClassNameOf(Str)) == Ok(None)
    requires strict || (s != "?" && !EqualsIgnoreCase(s, "null"))
    ensures var r := ToSqlValue(h, providers, convert, dbClass, VStr(s), strict);
      r.Ok? && r.value.Some? && Unstringify(r.value.value) == Some(s)
  {
    StringWithoutConverter(h, providers, convert, dbClass, s, strict);
    StringifyRoundTrip(s);
  }

  /** Without a converter a string that is not a special word is stringified. */
  lemma StringWithoutConverter(h: Hierarchy, providers: Providers, convert: ConvertFunction, dbClass: ClassName, s: string, strict: bool)
    requires FindConverter(h, providers, DbChain(h, dbClass), ClassNameOf(Str)) == Ok(None)
    requires strict || (s != "?" && !EqualsIgnoreCase(s, "null"))
    ensures ToSqlValue(h, providers, convert, dbClass, VStr(s), strict) == Ok(Stringify(Some(s)))
  {
    WrapperClasses(Str);
  }

  /** Without a converter and outside strict mode, "?" stays a bind placeholder and "null" becomes SQL null. */
  lemma NonStrictSpecialStrings(h: Hierarchy, providers: Providers, convert: ConvertFunction, dbClass: ClassName)
    requires FindConverter(h, providers, DbChain(h, dbClass), ClassNameOf(Str)) == Ok(None)
    ensures ToSqlValue(h, providers, convert, dbClass, VStr("?"), false) == Ok(Some("?"))
    ensures ToSqlValue(h, providers, convert, dbClass, VStr("NuLl"), false) == Ok(None)
    ensures ToSqlValue(h, providers, convert, dbClass, VStr("?"), true) == Ok(Some("\"?\""))
  {
    assert EqualsIgnoreCase("NuLl", "null");
    assert !EqualsIgnoreCase("?", "null");
    WrapperClasses(Str);
    assert Escape("?") == "?";
    assert "\"" + "?" + "\"" == "\"?\"";
  }

  /** Without a converter, boxed integers print as their decimal value, unquoted. */
  lemma IntegerPrintsAsDecimal(h: Hierarchy, providers: Providers, convert: ConvertFunction, dbClass: ClassName, n: int, strict: bool)
    requires FindConverter(h, providers, DbChain(h, dbClass), ClassNameOf(Boxed(Int))) == Ok(None)
    ensures var r := ToSqlValue(h, providers, convert, dbClass, VInt(n), strict);
      r.Ok? && r.value.Some? && IsIntLiteral(r.value.value) && ParseInt(r.value.value) == n
  {
    WrapperClasses(Boxed(Int));
    IntToStringRoundTrip(n);
  }
}
