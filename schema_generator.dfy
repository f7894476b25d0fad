/**
 * Schema generation of SqlDatabase: the SQL type of a column (toDatabaseType), the
 * CREATE TABLE statement of a row class (createTable) and its FOREIGN KEY clauses
 * (addForeignKey). What getFields returns for the row class is given as a sequence of
 * Field descriptors.
 */
module SchemaGenerator {
  import opened Wrappers
  import opened JavaText
  import opened JavaTypes
  import opened ReflectionUtil
  import opened StringUtil
  import CascadeAction
  import opened Annotations
  import opened Database
  import opened AbstractTable
  import opened SqlTranslator

  /** Integer.MAX_VALUE, the combinationId that marks a @UniqueKey as a plain UNIQUE column. */
  const IntMaxValue := 0x7fff_ffff

  /** The "(n)" suffix of a column with an explicit keyLength, "" for the default -1. */
  function KeyLength(c: Column): (r: string)
    ensures r == "" <==> c.keyLength < 0
  {
    if c.keyLength >= 0 then "(" + IntToString(c.keyLength) + ")" else ""
  }

  /** The suffix gives the key length back: it is "(", the decimal digits of keyLength, ")". */
  lemma KeyLengthRoundTrip(c: Column)
    requires c.keyLength >= 0
    ensures var kl := KeyLength(c);
      |kl| >= 3 && kl[0] == '(' && kl[|kl| - 1] == ')'
      && IsIntLiteral(kl[1..|kl| - 1]) && ParseInt(kl[1..|kl| - 1]) == c.keyLength
  {
    var kl := KeyLength(c);
    assert kl[1..|kl| - 1] == IntToString(c.keyLength);
    IntToStringRoundTrip(c.keyLength);
  }

  /** Whether toDatabaseType treats the column as a key: @Column primary or unique, @ForeignKey or @UniqueKey. */
  predicate IsKey(f: Field)
    requires f.column.Some?
  {
    f.column.value.primaryKey || f.column.value.uniqueKey || f.foreignKey.Some? || f.uniqueKey.Some?
  }

  const NoSqlType := "No database type available for: "

  /** The SQL type of a primitive or its wrapper; char has none. */
  function PrimitiveColumnType(p: Primitive, kl: string, k: TypeKind): Result<string>
  {
    match p
    case Int => Ok("INT" + kl)
    case Boolean => Ok(if kl == "" then "TINYINT(1)" else "TINYINT" + kl)
    case Double => Ok("DOUBLE" + kl)
    case Float => Ok("FLOAT" + kl)
    case Long => Ok("BIGINT" + kl)
    case Short => Ok("SMALLINT" + kl)
    case Byte => Ok("TINYINT" + kl)
    case Char => Err(Runtime(NoSqlType + ClassNameOf(k)))
  }

  /** The SQL type of a field of type k under the @Column c, isKey telling whether it is a key column. */
  function ColumnType(c: Column, k: TypeKind, isKey: bool): Result<string>
  {
    var kl := KeyLength(c);
    match k
    case UtilDate => Err(Runtime("Date is not supported for now !"))
    case SqlDate => Err(Runtime("Date is not supported for now!"))
    case Prim(p) => PrimitiveColumnType(p, kl, k)
    case Boxed(p) => PrimitiveColumnType(p, kl, k)
    case Str =>
      if kl == "" then Ok(if isKey then "VARCHAR(255)" else "VARCHAR(999)")
      else Ok("VARCHAR" + kl)
    case OtherNumber(n) => Err(Runtime(NoSqlType + n))
    case Other(n) => Err(Runtime(NoSqlType + n))
  }

  /**
   * toDatabaseType: the SQL type of a field. The @Column annotation is read first, so a
   * field without one fails with a NullPointerException.
   */
  function ToDatabaseType(f: Field): (r: Result<string>)
  {
    if f.column.None? then Err(NullPointer)
    else ColumnType(f.column.value, f.fieldType, IsKey(f))
  }

  /** The field types toDatabaseType can map: String and every primitive or wrapper except char. */
  predicate HasSqlType(k: TypeKind)
  {
    k == Str || ((k.Prim? || k.Boxed?) && k.p != Char)
  }

  /** toDatabaseType succeeds exactly on @Column fields of a mappable type. */
  lemma ToDatabaseTypeFailsIff(f: Field)
    ensures ToDatabaseType(f).Ok? <==> f.column.Some? && HasSqlType(f.fieldType)
  {
  }

  /** The numeric types, unboxed or boxed, map to their SQL names followed by the key length. */
  lemma NumericTypes(f: Field, p: Primitive)
    requires f.column.Some? && (f.fieldType == Prim(p) || f.fieldType == Boxed(p))
    ensures var kl := KeyLength(f.column.value);
      var r := ToDatabaseType(f);
      (p == Int ==> r == Ok("INT" + kl))
      && (p == Long ==> r == Ok("BIGINT" + kl))
      && (p == Short ==> r == Ok("SMALLINT" + kl))
      && (p == Byte ==> r == Ok("TINYINT" + kl))
      && (p == Double ==> r == Ok("DOUBLE" + kl))
      && (p == Float ==> r == Ok("FLOAT" + kl))
  {
  }

  /** A boolean is TINYINT(1) unless an explicit key length replaces the (1). */
  lemma BooleanType(f: Field)
    requires f.column.Some? && (f.fieldType == Prim(Boolean) || f.fieldType == Boxed(Boolean))
    ensures f.column.value.keyLength < 0 ==> ToDatabaseType(f) == Ok("TINYINT(1)")
    ensures f.column.value.keyLength >= 0 ==> ToDatabaseType(f) == Ok("TINYINT" + KeyLength(f.column.value))
  {
  }

  /**
   * A String is VARCHAR with its explicit length; without one it is VARCHAR(255) for a key
   * column and VARCHAR(999) otherwise. An @Index alone does not make a key.
   */
  lemma StringType(f: Field)
    requires f.column.Some? && f.fieldType == Str
    ensures f.column.value.keyLength >= 0 ==> ToDatabaseType(f) == Ok("VARCHAR" + KeyLength(f.column.value))
    ensures f.column.value.keyLength < 0 ==>
      (ToDatabaseType(f) == Ok("VARCHAR(255)") <==>
        f.column.value.primaryKey || f.column.value.uniqueKey || f.foreignKey.Some? || f.uniqueKey.Some?)
    ensures ToDatabaseType(f) == ToDatabaseType(f.(index := None))
  {
  }

  /** The two Date classes are refused, each with its own message. */
  lemma DatesRefused(f: Field)
    requires f.column.Some? && (f.fieldType == UtilDate || f.fieldType == SqlDate)
    ensures ToDatabaseType(f).Err? && ToDatabaseType(f).error.Runtime?
    ensures ToDatabaseType(f).error.reason[..24] == "Date is not supported fo"
  {
  }

  /** The error of a column annotated with a modifier its type cannot carry. */
  function ColumnError(table: string, name: string, what: string): Exception
  {
    InvalidSqlColumn(table, name, "column was annotated as " + what)
  }

  const NotANumber := " but wrapper type is not a number"

  /** ZEROFILL, UNSIGNED and AUTO_INCREMENT, in that order, for the attributes set. */
  function NumericModifiers(c: Column): string
  {
    (if c.zerofill then " ZEROFILL" else "")
    + (if c.unsigned then " UNSIGNED" else "")
    + (if c.autoIncrement then " AUTO_INCREMENT" else "")
  }

  /** NOT NULL for every column without @Nullable. */
  function NotNull(nullable: bool): string
  {
    if !nullable then " NOT NULL" else ""
  }

  /** DEFAULT (verbatim SQL) and COMMENT (between single quotes, unescaped) when not blank. */
  function DefaultAndComment(c: Column): string
  {
    (if !IsEmptyOrNull(Some(c.defaultValue)) then " DEFAULT " + c.defaultValue else "")
    + (if !IsEmptyOrNull(Some(c.comment)) then " COMMENT '" + c.comment + "'" else "")
  }

  /**
   * The clause of a column named name, with annotation c, field type k, @Nullable or not,
   * whose toDatabaseType is ty.
   */
  function ClauseOf(bt: char, table: string, name: string, c: Column, k: TypeKind, nullable: bool, ty: Result<string>): (r: Result<string>)
    ensures r.Ok? ==> ty.Ok?
    ensures r.Ok? ==> var head := Quoted(bt, name) + " " + ty.value;
      |r.value| > |head| && r.value[..|head|] == head && r.value[|r.value| - 1] == ','
  {
    var t :- ty;
    if c.zerofill && !IsNumber(k) then Err(ColumnError(table, name, "ZEROFILL" + NotANumber))
    else if c.unsigned && !IsNumber(k) then Err(ColumnError(table, name, "UNSIGNED" + NotANumber))
    else if c.autoIncrement && !IsNumber(k) then Err(ColumnError(table, name, "AUTO_INCREMENT" + NotANumber))
    else if nullable && IsPrimitiveClass(k) then Err(ColumnError(table, name, "NULLABLE but wrapper type is a primitive type"))
    else
      var head := Quoted(bt, name) + " " + t;
      var r := head + NumericModifiers(c) + NotNull(nullable) + DefaultAndComment(c) + ",";
      assert r[..|head|] == head;
      Ok(r)
  }

  /**
   * The text createTable appends for one @Column field, the trailing comma included:
   * the quoted name, the type, ZEROFILL, UNSIGNED and AUTO_INCREMENT (numbers only),
   * NOT NULL unless @Nullable (which a primitive cannot be), DEFAULT and COMMENT.
   */
  function ColumnClause(bt: char, table: string, f: Field): (r: Result<string>)
    requires f.column.Some?
  {
    ClauseOf(bt, table, ColumnName(f), f.column.value, f.fieldType, f.nullable, ToDatabaseType(f))
  }

  /** Whether createTable refuses the column. */
  predicate InvalidColumn(f: Field)
    requires f.column.Some?
  {
    var c := f.column.value;
    !HasSqlType(f.fieldType)
    || ((c.zerofill || c.unsigned || c.autoIncrement) && !IsNumber(f.fieldType))
    || (f.nullable && IsPrimitiveClass(f.fieldType))
  }

  /** A column clause fails exactly on an unmappable type or a modifier the type cannot carry. */
  lemma ColumnClauseFailsIff(bt: char, table: string, f: Field)
    requires f.column.Some?
    ensures ColumnClause(bt, table, f).Err? <==> InvalidColumn(f)
  {
    ToDatabaseTypeFailsIff(f);
  }

  /** The two clauses of a column that differ only in @Nullable, split where " NOT NULL" goes. */
  lemma ClauseOfNullable(bt: char, table: string, name: string, c: Column, k: TypeKind, ty: Result<string>)
    requires !IsPrimitiveClass(k) && ClauseOf(bt, table, name, c, k, false, ty).Ok?
    ensures ClauseOf(bt, table, name, c, k, true, ty).Ok?
    ensures var head := Quoted(bt, name) + " " + ty.value + NumericModifiers(c);
      ClauseOf(bt, table, name, c, k, true, ty).value == head + DefaultAndComment(c) + ","
      && ClauseOf(bt, table, name, c, k, false, ty).value == head + " NOT NULL" + DefaultAndComment(c) + ","
  {
    var head := Quoted(bt, name) + " " + ty.value + NumericModifiers(c);
    assert head + NotNull(true) == head;
  }

  /**
   * Making a non-primitive column @Nullable only drops its " NOT NULL": the rest of the
   * clause stays as it was.
   */
  lemma NullableDropsNotNull(bt: char, table: string, f: Field)
    requires f.column.Some? && !f.nullable && !IsPrimitiveClass(f.fieldType)
    requires ColumnClause(bt, table, f).Ok?
    ensures ColumnClause(bt, table, f.(nullable := true)).Ok?
    ensures var n := ColumnClause(bt, table, f.(nullable := true)).value;
      exists k :: 0 <= k <= |n| && ColumnClause(bt, table, f) == Ok(n[..k] + " NOT NULL" + n[k..])
  {
    var g := f.(nullable := true);
    var c := f.column.value;
    var name := ColumnName(f);
    var ty := ToDatabaseType(f);
    assert ToDatabaseType(g) == ty;
    assert ColumnName(g) == name;
    ClauseOfNullable(bt, table, name, c, f.fieldType, ty);
    var head := Quoted(bt, name) + " " + ty.value + NumericModifiers(c);
    var tail := DefaultAndComment(c) + ",";
    var n := head + tail;
    assert n == head + DefaultAndComment(c) + ",";
    assert n[..|head|] == head && n[|head|..] == tail;
    assert ColumnClause(bt, table, g).value == n;
    assert ColumnClause(bt, table, f).value == head + " NOT NULL" + DefaultAndComment(c) + ",";
    assert head + " NOT NULL" + DefaultAndComment(c) + "," == n[..|head|] + " NOT NULL" + n[|head|..];
  }

  /**
   * What the field loop of createTable collects: the column clauses, the names of the
   * PRIMARY KEY and UNIQUE columns, the @UniqueKey combination groups, and the fields
   * with @ForeignKey and with @Index.
   */
  datatype Layout = Layout(
    columns: string,
    primaryKeys: seq<string>,
    uniqueKeys: seq<string>,
    groups: map<int, seq<string>>,
    foreignKeys: seq<Field>,
    indexes: seq<Field>)

  const EmptyLayout := Layout("", [], [], map[], [], [])

  /** Whether f is a @Column with a @UniqueKey that joins a combination group. */
  predicate InGroup(f: Field)
  {
    f.column.Some? && f.uniqueKey.Some? && f.uniqueKey.value.combinationId != IntMaxValue
  }

  /** The combination ids of the @UniqueKey groups among the @Column fields. */
  function CombinationIds(fields: seq<Field>): set<int>
  {
    if fields == [] then {}
    else
      var f := fields[|fields| - 1];
      CombinationIds(fields[..|fields| - 1]) + (if InGroup(f) then {f.uniqueKey.value.combinationId} else {})
  }

  predicate WellFormed(l: Layout)
  {
    (forall id :: id in l.groups ==> l.groups[id] != [])
    && (forall g :: g in l.foreignKeys ==> g.column.Some? && g.foreignKey.Some?)
    && (forall g :: g in l.indexes ==> g.column.Some? && g.index.Some?)
  }

  /** One pass of the field loop: fields without @Column are skipped. */
  function ScanField(bt: char, table: string, l: Layout, f: Field): (r: Result<Layout>)
    requires WellFormed(l)
    ensures r.Ok? ==> WellFormed(r.value)
    ensures r.Ok? ==> r.value.groups.Keys == l.groups.Keys + (if InGroup(f) then {f.uniqueKey.value.combinationId} else {})
    ensures r.Err? <==> f.column.Some? && ColumnClause(bt, table, f).Err?
    ensures r.Err? ==> r.error == ColumnClause(bt, table, f).error
  {
    if f.column.None? then Ok(l)
    else
      var clause :- ColumnClause(bt, table, f);
      var name := ColumnName(f);
      var c := f.column.value;
      var uniques := l.uniqueKeys + (if c.uniqueKey then [name] else [])
        + (if f.uniqueKey.Some? && f.uniqueKey.value.combinationId == IntMaxValue then [name] else []);
      var groups :=
        if InGroup(f) then
          var id := f.uniqueKey.value.combinationId;
          l.groups[id := (if id in l.groups then l.groups[id] else []) + [name]]
        else l.groups;
      Ok(Layout(
        l.columns + clause,
        l.primaryKeys + (if c.primaryKey then [name] else []),
        uniques,
        groups,
        l.foreignKeys + (if f.foreignKey.Some? then [f] else []),
        l.indexes + (if f.index.Some? then [f] else [])))
  }

  /** Some @Column field of fields is one createTable refuses. */
  predicate HasRefusedColumn(fields: seq<Field>)
  {
    exists i :: 0 <= i < |fields| && fields[i].column.Some? && InvalidColumn(fields[i])
  }

  /** Some @Column field of fields has a @ForeignKey whose target class declares no TABLE_NAME. */
  predicate HasMissingTarget(tableNames: map<ClassName, string>, fields: seq<Field>)
  {
    exists i :: 0 <= i < |fields| && fields[i].column.Some? && fields[i].foreignKey.Some?
      && fields[i].foreignKey.value.table !in tableNames
  }

  /** fields[i] is the first @Column field createTable refuses. */
  predicate FirstInvalid(fields: seq<Field>, i: int)
  {
    0 <= i < |fields| && fields[i].column.Some? && InvalidColumn(fields[i])
    && forall j :: 0 <= j < i && fields[j].column.Some? ==> !InvalidColumn(fields[j])
  }

  /** The field loop over a prefix of the fields; the first refused column ends it. */
  function Scan(bt: char, table: string, fields: seq<Field>): (r: Result<Layout>)
    ensures r.Ok? ==> WellFormed(r.value) && r.value.groups.Keys == CombinationIds(fields)
  {
    if fields == [] then Ok(EmptyLayout)
    else
      var l :- Scan(bt, table, fields[..|fields| - 1]);
      ScanField(bt, table, l, fields[|fields| - 1])
  }

  /** Once a prefix of the fields is refused, the whole loop is refused with the same error. */
  lemma {:induction false} ScanErrorPersists(bt: char, table: string, fields: seq<Field>, i: nat)
    requires i <= |fields| && Scan(bt, table, fields[..i]).Err?
    ensures Scan(bt, table, fields) == Scan(bt, table, fields[..i])
    decreases |fields| - i
  {
    if i < |fields| {
      assert fields[..|fields| - 1][..i] == fields[..i];
      ScanErrorPersists(bt, table, fields[..|fields| - 1], i);
    } else {
      assert fields[..i] == fields;
    }
  }

  /** One more field fails the loop exactly when the prefix failed or the field is a refused column. */
  lemma ScanStepFails(bt: char, table: string, fields: seq<Field>)
    requires fields != []
    ensures var f := fields[|fields| - 1];
      Scan(bt, table, fields).Err? <==>
        Scan(bt, table, fields[..|fields| - 1]).Err? || (f.column.Some? && InvalidColumn(f))
  {
    var f := fields[|fields| - 1];
    if Scan(bt, table, fields[..|fields| - 1]).Ok? && f.column.Some? {
      ColumnClauseFailsIff(bt, table, f);
    }
  }

  /** The loop fails exactly when some @Column field is refused. */
  lemma {:induction false} ScanFailsIff(bt: char, table: string, fields: seq<Field>)
    ensures Scan(bt, table, fields).Err? <==> HasRefusedColumn(fields)
  {
    if fields != [] {
      ScanFailsIff(bt, table, fields[..|fields| - 1]);
      ScanStepFails(bt, table, fields);
      InvalidSnoc(fields);
    }
  }

  /** Some field of fields is a refused column exactly when one of its prefix is, or its last one. */
  lemma InvalidSnoc(fields: seq<Field>)
    requires fields != []
    ensures var init, f := fields[..|fields| - 1], fields[|fields| - 1];
      HasRefusedColumn(fields) <==> HasRefusedColumn(init) || (f.column.Some? && InvalidColumn(f))
  {
    var init, f := fields[..|fields| - 1], fields[|fields| - 1];
    if exists i :: 0 <= i < |fields| && fields[i].column.Some? && InvalidColumn(fields[i]) {
      var i :| 0 <= i < |fields| && fields[i].column.Some? && InvalidColumn(fields[i]);
      if i < |init| {
        assert init[i] == fields[i];
      }
    }
    if exists i :: 0 <= i < |init| && init[i].column.Some? && InvalidColumn(init[i]) {
      var i :| 0 <= i < |init| && init[i].column.Some? && InvalidColumn(init[i]);
      assert fields[i] == init[i];
    }
    if f.column.Some? && InvalidColumn(f) {
      assert fields[|init|] == f;
    }
  }

  /** A refused loop reports the error of the first refused column. */
  lemma {:induction false} ScanFirstError(bt: char, table: string, fields: seq<Field>, i: int)
    requires FirstInvalid(fields, i)
    ensures Scan(bt, table, fields) == Err(ColumnClause(bt, table, fields[i]).error)
  {
    var init := fields[..|fields| - 1];
    var f := fields[|fields| - 1];
    forall j | 0 <= j < |init| ensures init[j] == fields[j] {}
    if i < |init| {
      assert FirstInvalid(init, i);
      ScanFirstError(bt, table, init, i);
    } else {
      ScanFailsIff(bt, table, init);
      ColumnClauseFailsIff(bt, table, f);
    }
  }

  /** The PRIMARY KEY list holds, in field order, exactly the names of the primaryKey columns. */
  lemma {:induction false} ScanPrimaryKeys(bt: char, table: string, fields: seq<Field>)
    requires Scan(bt, table, fields).Ok?
    ensures forall n :: n in Scan(bt, table, fields).value.primaryKeys <==>
      exists i :: 0 <= i < |fields| && fields[i].column.Some? && fields[i].column.value.primaryKey && ColumnName(fields[i]) == n
  {
    if fields != [] {
      var init := fields[..|fields| - 1];
      ScanPrimaryKeys(bt, table, init);
      forall i | 0 <= i < |init| ensures init[i] == fields[i] {}
    }
  }

  /**
   * The @ForeignKey and @Index lists hold exactly the @Column fields carrying those
   * annotations.
   */
  lemma {:induction false} ScanCollectsFields(bt: char, table: string, fields: seq<Field>)
    requires Scan(bt, table, fields).Ok?
    ensures forall g :: g in Scan(bt, table, fields).value.foreignKeys <==> g in fields && g.column.Some? && g.foreignKey.Some?
    ensures forall g :: g in Scan(bt, table, fields).value.indexes <==> g in fields && g.column.Some? && g.index.Some?
  {
    if fields != [] {
      var init := fields[..|fields| - 1];
      ScanCollectsFields(bt, table, init);
      assert forall g :: g in fields <==> g in init || g == fields[|fields| - 1];
    }
  }

  /** The names, in field order, of the @Column fields in the combination group id. */
  function GroupNames(fields: seq<Field>, id: int): (r: seq<string>)
    ensures forall n :: n in r ==>
      exists i :: 0 <= i < |fields| && InGroup(fields[i]) && fields[i].uniqueKey.value.combinationId == id && ColumnName(fields[i]) == n
  {
    if fields == [] then []
    else
      var init := fields[..|fields| - 1];
      var f := fields[|fields| - 1];
      var r := GroupNames(init, id) + (if InGroup(f) && f.uniqueKey.value.combinationId == id then [ColumnName(f)] else []);
      assert forall i :: 0 <= i < |init| ==> init[i] == fields[i];
      r
  }

  /** Every member of the group is listed. */
  lemma {:induction false} GroupNamesComplete(fields: seq<Field>, id: int, i: int)
    requires 0 <= i < |fields| && InGroup(fields[i]) && fields[i].uniqueKey.value.combinationId == id
    ensures ColumnName(fields[i]) in GroupNames(fields, id)
  {
    var init := fields[..|fields| - 1];
    if i < |init| {
      assert init[i] == fields[i];
      GroupNamesComplete(init, id, i);
    }
  }

  /** One more field changes the groups only when it joins one: its name goes at the end of its group. */
  lemma ScanGroupsStep(bt: char, table: string, fields: seq<Field>)
    requires fields != [] && Scan(bt, table, fields).Ok?
    ensures Scan(bt, table, fields[..|fields| - 1]).Ok?
    ensures var f := fields[|fields| - 1];
      var g0 := Scan(bt, table, fields[..|fields| - 1]).value.groups;
      var g := Scan(bt, table, fields).value.groups;
      (!InGroup(f) ==> g == g0)
      && (InGroup(f) ==> var id := f.uniqueKey.value.combinationId;
            g == g0[id := (if id in g0 then g0[id] else []) + [ColumnName(f)]])
  {
  }

  /** Each combination group lists, in field order, the names of the columns sharing its id. */
  lemma {:induction false} ScanGroups(bt: char, table: string, fields: seq<Field>, id: int)
    requires Scan(bt, table, fields).Ok?
    ensures var groups := Scan(bt, table, fields).value.groups;
      (id in groups ==> groups[id] == GroupNames(fields, id))
      && (id !in groups ==> GroupNames(fields, id) == [])
  {
    if fields != [] {
      var init := fields[..|fields| - 1];
      ScanGroupsStep(bt, table, fields);
      ScanGroups(bt, table, init, id);
    }
  }

  lemma {:induction false} CombinationIdsHas(fields: seq<Field>, i: nat)
    requires i < |fields| && InGroup(fields[i])
    ensures fields[i].uniqueKey.value.combinationId in CombinationIds(fields)
  {
    if i < |fields| - 1 {
      CombinationIdsHas(fields[..|fields| - 1], i);
    }
  }

  /** The names quoted with the database's backtick. */
  function Quotes(bt: char, names: seq<string>): (r: seq<string>)
    ensures |r| == |names| && forall i :: 0 <= i < |names| ==> r[i] == Quoted(bt, names[i])
  {
    seq(|names|, i requires 0 <= i < |names| => Quoted(bt, names[i]))
  }

  /** The one PRIMARY KEY clause, over every primaryKey column (several are not refused). */
  function PrimaryKeyClause(bt: char, names: seq<string>): string
  {
    if names == [] then "" else "PRIMARY KEY (" + Join(Quotes(bt, names), ", ") + "),"
  }

  /** One UNIQUE clause per uniqueKey column. */
  function UniqueClauses(bt: char, names: seq<string>): string
  {
    if names == [] then ""
    else UniqueClauses(bt, names[..|names| - 1]) + UniqueClause(bt, names[|names| - 1])
  }

  /** The UNIQUE clause of one column. */
  function UniqueClause(bt: char, name: string): string
  {
    "UNIQUE (" + Quoted(bt, name) + "),"
  }

  /** The UNIQUE KEY clause of a combination group, named after its first column. */
  function GroupClause(bt: char, names: seq<string>): string
    requires names != []
  {
    "UNIQUE KEY " + Quoted(bt, names[0] + "_uk") + " (" + Join(Quotes(bt, names), ", ") + "),"
  }

  /** The group clauses, in the order the HashMap hands out its values. */
  function GroupClauses(bt: char, groups: map<int, seq<string>>, order: seq<int>): string
    requires CoversGroups(groups, order)
  {
    if order == [] then ""
    else GroupClauses(bt, groups, order[..|order| - 1]) + GroupClause(bt, groups[order[|order| - 1]])
  }

  /** Every id of order names a non-empty group. */
  predicate CoversGroups(groups: map<int, seq<string>>, order: seq<int>)
  {
    forall i :: 0 <= i < |order| ==> order[i] in groups && groups[order[i]] != []
  }

  /** An iteration order of the combination groups: each id once. */
  predicate IsGroupOrder(order: seq<int>, ids: set<int>)
  {
    (forall id :: id in order ==> id in ids)
    && (forall id :: id in ids ==> id in order)
    && forall i, j :: 0 <= i < j < |order| ==> order[i] != order[j]
  }

  /** An iteration order of the groups the field loop collected visits only non-empty groups. */
  lemma GroupOrderCovers(l: Layout, order: seq<int>)
    requires WellFormed(l) && IsGroupOrder(order, l.groups.Keys)
    ensures CoversGroups(l.groups, order)
  {
    forall i | 0 <= i < |order| ensures order[i] in l.groups && l.groups[order[i]] != [] {
      var id := order[i];
      assert id in order;
      assert id in l.groups.Keys;
      assert id in l.groups;
    }
  }

  const MissingTableName := "Static String Field TABLE_NAME was not declared in table wrapper class "

  /** The referencing column and the referenced table (prefix and TABLE_NAME, unquoted) and column. */
  function References(bt: char, prefix: string, tableName: string, name: string, column: string): string
  {
    "FOREIGN KEY (" + Quoted(bt, name) + ") REFERENCES " + prefix + tableName + " (" + Quoted(bt, column) + ")"
  }

  /** The referential actions: ON UPDATE first, then ON DELETE. */
  function Actions(onUpdate: CascadeAction.CascadeAction, onDelete: CascadeAction.CascadeAction): string
  {
    " ON UPDATE " + CascadeAction.ToSql(onUpdate) + " ON DELETE " + CascadeAction.ToSql(onDelete)
  }

  /** The actions are spelled with MySQL's keywords: SET NULL, SET DEFAULT, NO ACTION, RESTRICT, CASCADE. */
  lemma ActionsAreKeywords(onUpdate: CascadeAction.CascadeAction, onDelete: CascadeAction.CascadeAction)
    ensures Actions(onUpdate, onDelete) ==
      " ON UPDATE " + CascadeAction.Keyword(onUpdate) + " ON DELETE " + CascadeAction.Keyword(onDelete)
  {
    CascadeAction.ToSqlIsKeyword(onUpdate);
    CascadeAction.ToSqlIsKeyword(onDelete);
  }

  /**
   * The FOREIGN KEY clause addForeignKey appends, or the error for a target class that
   * declares no static TABLE_NAME.
   */
  function ForeignKeyClause(bt: char, prefix: string, tableNames: map<ClassName, string>, name: string,
                            target: ClassName, column: string,
                            onUpdate: CascadeAction.CascadeAction, onDelete: CascadeAction.CascadeAction): (r: Result<string>)
    ensures r.Ok? <==> target in tableNames
  {
    if target !in tableNames then Err(Runtime(MissingTableName + target + "!"))
    else Ok(References(bt, prefix, tableNames[target], name, column) + Actions(onUpdate, onDelete) + ",")
  }

  /** addForeignKey: sql with the FOREIGN KEY clause appended. */
  function AddForeignKey(db: SqlDatabase, sql: string, name: string, target: ClassName, tableNames: map<ClassName, string>,
                         column: string, onUpdate: CascadeAction.CascadeAction, onDelete: CascadeAction.CascadeAction): (r: Result<string>)
    ensures r.Ok? <==> target in tableNames
    ensures r.Ok? ==> |sql| <= |r.value| && r.value[..|sql|] == sql
  {
    var clause :- ForeignKeyClause(db.Backtick(), db.tablePrefix, tableNames, name, target, column, onUpdate, onDelete);
    assert (sql + clause)[..|sql|] == sql;
    Ok(sql + clause)
  }

  /** The FOREIGN KEY clauses of the @ForeignKey fields, in field order. */
  function ForeignKeyClauses(db: SqlDatabase, tableNames: map<ClassName, string>, fks: seq<Field>): (r: Result<string>)
    requires forall g :: g in fks ==> g.column.Some? && g.foreignKey.Some?
  {
    if fks == [] then Ok("")
    else
      var done :- ForeignKeyClauses(db, tableNames, fks[..|fks| - 1]);
      var f := fks[|fks| - 1];
      var fk := f.foreignKey.value;
      AddForeignKey(db, done, ColumnName(f), fk.table, tableNames, fk.column, fk.onUpdate, fk.onDelete)
  }

  /** The clauses fail exactly when some target class declares no TABLE_NAME. */
  lemma {:induction false} ForeignKeyClausesFailIff(db: SqlDatabase, tableNames: map<ClassName, string>, fks: seq<Field>)
    requires forall g :: g in fks ==> g.column.Some? && g.foreignKey.Some?
    ensures ForeignKeyClauses(db, tableNames, fks).Err? <==>
      exists i :: 0 <= i < |fks| && fks[i].foreignKey.value.table !in tableNames
  {
    if fks != [] {
      ForeignKeyClausesFailIff(db, tableNames, fks[..|fks| - 1]);
      MissingTargetSnoc(tableNames, fks);
    }
  }

  /** Some target of fks is missing exactly when one of its prefix is, or its last one. */
  lemma MissingTargetSnoc(tableNames: map<ClassName, string>, fks: seq<Field>)
    requires fks != [] && forall g :: g in fks ==> g.column.Some? && g.foreignKey.Some?
    ensures var init, f := fks[..|fks| - 1], fks[|fks| - 1];
      (exists i :: 0 <= i < |fks| && fks[i].foreignKey.value.table !in tableNames) <==>
        (exists i :: 0 <= i < |init| && init[i].foreignKey.value.table !in tableNames)
        || f.foreignKey.value.table !in tableNames
  {
    var init, f := fks[..|fks| - 1], fks[|fks| - 1];
    assert forall g :: g in init ==> g in fks;
    if exists i :: 0 <= i < |fks| && fks[i].foreignKey.value.table !in tableNames {
      var i :| 0 <= i < |fks| && fks[i].foreignKey.value.table !in tableNames;
      if i < |init| {
        assert init[i] == fks[i];
      }
    }
    if exists i :: 0 <= i < |init| && init[i].foreignKey.value.table !in tableNames {
      var i :| 0 <= i < |init| && init[i].foreignKey.value.table !in tableNames;
      assert fks[i] == init[i];
    }
    if f.foreignKey.value.table !in tableNames {
      assert fks[|init|] == f;
    }
  }

  lemma {:induction false} ForeignKeyErrorPersists(db: SqlDatabase, tableNames: map<ClassName, string>, fks: seq<Field>, i: nat)
    requires forall g :: g in fks ==> g.column.Some? && g.foreignKey.Some?
    requires i <= |fks| && ForeignKeyClauses(db, tableNames, fks[..i]).Err?
    ensures ForeignKeyClauses(db, tableNames, fks) == ForeignKeyClauses(db, tableNames, fks[..i])
    decreases |fks| - i
  {
    if i < |fks| {
      assert fks[..|fks| - 1][..i] == fks[..i];
      ForeignKeyErrorPersists(db, tableNames, fks[..|fks| - 1], i);
    } else {
      assert fks[..i] == fks;
    }
  }

  /** The foreign key an OptionsTable declares for its foreignTarget column. */
  datatype OptionsForeignKey = OptionsForeignKey(
    table: ClassName, column: string, onUpdate: CascadeAction.CascadeAction, onDelete: CascadeAction.CascadeAction)

  /** The name of an @Index: its own name unless blank, else the column name followed by "_I". */
  function IndexName(f: Field): (r: string)
    requires f.column.Some? && f.index.Some?
    ensures IsEmptyOrNull(Some(f.index.value.name)) ==> r == ColumnName(f) + "_I"
  {
    if IsEmptyOrNull(Some(f.index.value.name)) then ColumnName(f) + "_I" else f.index.value.name
  }

  /** The INDEX clauses; on InnoDB, foreign-key columns are skipped (InnoDB indexes them already). */
  function IndexClauses(bt: char, innoDb: bool, fks: seq<Field>, indexes: seq<Field>): string
    requires forall g :: g in indexes ==> g.column.Some? && g.index.Some?
  {
    if indexes == [] then ""
    else
      var done := IndexClauses(bt, innoDb, fks, indexes[..|indexes| - 1]);
      var f := indexes[|indexes| - 1];
      if innoDb && f in fks then done
      else done + IndexClause(bt, f)
  }

  /** The INDEX clause of one @Index column. */
  function IndexClause(bt: char, f: Field): string
    requires f.column.Some? && f.index.Some?
  {
    "INDEX " + Quoted(bt, IndexName(f)) + " (" + Quoted(bt, ColumnName(f)) + "),"
  }

  /** On InnoDB an index on foreign-key columns only adds nothing; elsewhere each one adds a clause. */
  lemma {:induction false} IndexClausesSkipForeignKeys(bt: char, fks: seq<Field>, indexes: seq<Field>)
    requires forall g :: g in indexes ==> g.column.Some? && g.index.Some?
    ensures (forall g :: g in indexes ==> g in fks) ==> IndexClauses(bt, true, fks, indexes) == ""
    ensures |IndexClauses(bt, false, fks, indexes)| >= 12 * |indexes|
  {
    if indexes != [] {
      IndexClausesSkipForeignKeys(bt, fks, indexes[..|indexes| - 1]);
    }
  }

  /** The statement text without its single trailing comma. */
  function StripTrailingComma(s: string): (r: string)
    ensures s != [] && s[|s| - 1] == ',' ==> r + "," == s
    ensures !(s != [] && s[|s| - 1] == ',') ==> r == s
  {
    if s != [] && s[|s| - 1] == ',' then s[..|s| - 1] else s
  }

  /** The options table's foreign key, named foreignTarget, appended to the clauses when the table has options. */
  function OptionsClause(db: SqlDatabase, sql: string, tableNames: map<ClassName, string>,
                         options: Option<OptionsForeignKey>): (r: Result<string>)
    ensures r.Ok? <==> options.None? || options.value.table in tableNames
    ensures r.Ok? ==> |sql| <= |r.value| && r.value[..|sql|] == sql
  {
    if options.None? then Ok(sql)
    else
      var o := options.value;
      AddForeignKey(db, sql, "foreignTarget", o.table, tableNames, o.column, o.onUpdate, o.onDelete)
  }

  const CreateTablePrefix := "CREATE TABLE IF NOT EXISTS "

  /** The text after the closing parenthesis: the engine where the dialect supports engines, and ";". */
  function StatementEnd(d: Dialect, engine: string): string
  {
    if d.supportsEngines then ") ENGINE=" + engine + ";" else ");"
  }

  /** The text before the clauses: the prefix, the quoted table name and the opening parenthesis. */
  function StatementHead(bt: char, name: string): (r: string)
    ensures r != [] && r[|r| - 1] == '('
  {
    CreateTablePrefix + Quoted(bt, name) + " ("
  }

  /** The statement before the comma strip, in the order createTable appends its parts. */
  function Body(bt: char, name: string, l: Layout, foreignKeys: string, innoDb: bool, groupOrder: seq<int>): string
    requires WellFormed(l) && CoversGroups(l.groups, groupOrder)
  {
    StatementHead(bt, name) + l.columns + PrimaryKeyClause(bt, l.primaryKeys) + UniqueClauses(bt, l.uniqueKeys)
    + GroupClauses(bt, l.groups, groupOrder) + foreignKeys + IndexClauses(bt, innoDb, l.foreignKeys, l.indexes)
  }

  /**
   * The statement createTable executes, for a table named name (the prefixed getName)
   * with the given engine, or the exception it raises before executing anything.
   */
  function CreateTableSql(db: SqlDatabase, name: string, engine: string, fields: seq<Field>,
                          tableNames: map<ClassName, string>, options: Option<OptionsForeignKey>,
                          groupOrder: seq<int>): (r: Result<string>)
    requires IsGroupOrder(groupOrder, CombinationIds(fields))
  {
    var bt := db.Backtick();
    var l :- Scan(bt, name, fields);
    var fks :- ForeignKeyClauses(db, tableNames, l.foreignKeys);
    var withOptions :- OptionsClause(db, fks, tableNames, options);
    GroupOrderCovers(l, groupOrder);
    Ok(StripTrailingComma(Body(bt, name, l, withOptions, EqualsIgnoreCase(engine, "InnoDB"), groupOrder))
      + StatementEnd(db.dialect, engine))
  }

  /** Stripping the trailing comma never reaches into a head that does not end in a comma. */
  lemma StripKeepsHead(head: string, body: string)
    requires head != [] && head[|head| - 1] != ','
    requires |head| <= |body| && body[..|head|] == head
    ensures var s := StripTrailingComma(body);
      |head| <= |s| && s[..|head|] == head
  {
    if body[|body| - 1] == ',' {
      assert |head| < |body|;
      assert StripTrailingComma(body)[..|head|] == body[..|head|];
    }
  }

  /** A prefix of x is a prefix of x + y. */
  lemma PrefixOfAppend(x: string, y: string, n: nat)
    requires n <= |x|
    ensures (x + y)[..n] == x[..n]
  {
  }

  /** The body starts with the head. */
  lemma BodyStartsWithHead(bt: char, name: string, l: Layout, foreignKeys: string, innoDb: bool, groupOrder: seq<int>)
    requires WellFormed(l) && CoversGroups(l.groups, groupOrder)
    ensures var head := StatementHead(bt, name);
      var body := Body(bt, name, l, foreignKeys, innoDb, groupOrder);
      |head| <= |body| && body[..|head|] == head
  {
    var head := StatementHead(bt, name);
    var n := |head|;
    var s1 := head + l.columns;
    var s2 := s1 + PrimaryKeyClause(bt, l.primaryKeys);
    var s3 := s2 + UniqueClauses(bt, l.uniqueKeys);
    var s4 := s3 + GroupClauses(bt, l.groups, groupOrder);
    var s5 := s4 + foreignKeys;
    PrefixOfAppend(head, l.columns, n);
    PrefixOfAppend(s1, PrimaryKeyClause(bt, l.primaryKeys), n);
    PrefixOfAppend(s2, UniqueClauses(bt, l.uniqueKeys), n);
    PrefixOfAppend(s3, GroupClauses(bt, l.groups, groupOrder), n);
    PrefixOfAppend(s4, foreignKeys, n);
    PrefixOfAppend(s5, IndexClauses(bt, innoDb, l.foreignKeys, l.indexes), n);
  }

  /**
   * A created table's statement opens with the quoted name, ends with ";", and names the
   * engine exactly when the dialect supports engines.
   */
  lemma CreateTableShape(db: SqlDatabase, name: string, engine: string, fields: seq<Field>,
                         tableNames: map<ClassName, string>, options: Option<OptionsForeignKey>, groupOrder: seq<int>)
    requires IsGroupOrder(groupOrder, CombinationIds(fields))
    requires CreateTableSql(db, name, engine, fields, tableNames, options, groupOrder).Ok?
    ensures var s := CreateTableSql(db, name, engine, fields, tableNames, options, groupOrder).value;
      var head := CreateTablePrefix + Quoted(db.Backtick(), name) + " (";
      var end := StatementEnd(db.dialect, engine);
      |head| <= |s| && s[..|head|] == head
      && |end| <= |s| && s[|s| - |end|..] == end
      && (db.dialect.supportsEngines ==> end == ") ENGINE=" + engine + ";")
      && (!db.dialect.supportsEngines ==> end == ");")
  {
    var bt := db.Backtick();
    var l := Scan(bt, name, fields).value;
    var fks := ForeignKeyClauses(db, tableNames, l.foreignKeys).value;
    var withOptions := OptionsClause(db, fks, tableNames, options).value;
    GroupOrderCovers(l, groupOrder);
    CreateTableSqlOk(db, name, engine, fields, tableNames, options, groupOrder, l, fks, withOptions);
    var head := StatementHead(bt, name);
    var body := Body(bt, name, l, withOptions, EqualsIgnoreCase(engine, "InnoDB"), groupOrder);
    BodyStartsWithHead(bt, name, l, withOptions, EqualsIgnoreCase(engine, "InnoDB"), groupOrder);
    StripKeepsHead(head, body);
    var stripped := StripTrailingComma(body);
    var end := StatementEnd(db.dialect, engine);
    PrefixOfAppend(stripped, end, |head|);
    assert (stripped + end)[|stripped + end| - |end|..] == end;
  }

  /** The statement is refused exactly when the field loop, a field's foreign key or the options foreign key is. */
  lemma CreateTableFailsStep(db: SqlDatabase, name: string, engine: string, fields: seq<Field>,
                             tableNames: map<ClassName, string>, options: Option<OptionsForeignKey>, groupOrder: seq<int>)
    requires IsGroupOrder(groupOrder, CombinationIds(fields))
    ensures var bt := db.Backtick();
      CreateTableSql(db, name, engine, fields, tableNames, options, groupOrder).Err? <==>
        Scan(bt, name, fields).Err?
        || ForeignKeyClauses(db, tableNames, Scan(bt, name, fields).value.foreignKeys).Err?
        || (options.Some? && options.value.table !in tableNames)
  {
  }

  /**
   * The statement is refused exactly when a column is refused or a foreign key (the
   * options table's included) targets a class without TABLE_NAME.
   */
  lemma CreateTableFailsIff(db: SqlDatabase, name: string, engine: string, fields: seq<Field>,
                            tableNames: map<ClassName, string>, options: Option<OptionsForeignKey>, groupOrder: seq<int>)
    requires IsGroupOrder(groupOrder, CombinationIds(fields))
    ensures CreateTableSql(db, name, engine, fields, tableNames, options, groupOrder).Err? <==>
      HasRefusedColumn(fields) || HasMissingTarget(tableNames, fields)
      || (options.Some? && options.value.table !in tableNames)
  {
    var bt := db.Backtick();
    CreateTableFailsStep(db, name, engine, fields, tableNames, options, groupOrder);
    ScanFailsIff(bt, name, fields);
    var scan := Scan(bt, name, fields);
    if scan.Ok? {
      ScanCollectsFields(bt, name, fields);
      ForeignKeysOfFieldsFail(db, tableNames, fields, scan.value.foreignKeys);
    }
  }

  /** The foreign-key clauses of the @ForeignKey columns among fields fail exactly when one of them targets a class without TABLE_NAME. */
  lemma ForeignKeysOfFieldsFail(db: SqlDatabase, tableNames: map<ClassName, string>, fields: seq<Field>, fks: seq<Field>)
    requires forall g :: g in fks <==> g in fields && g.column.Some? && g.foreignKey.Some?
    ensures ForeignKeyClauses(db, tableNames, fks).Err? <==> HasMissingTarget(tableNames, fields)
  {
    ForeignKeyClausesFailIff(db, tableNames, fks);
    if exists i :: 0 <= i < |fields| && fields[i].column.Some? && fields[i].foreignKey.Some?
          && fields[i].foreignKey.value.table !in tableNames {
      var i :| 0 <= i < |fields| && fields[i].column.Some? && fields[i].foreignKey.Some?
          && fields[i].foreignKey.value.table !in tableNames;
      assert fields[i] in fields;
      var k :| 0 <= k < |fks| && fks[k] == fields[i];
    }
    if exists k :: 0 <= k < |fks| && fks[k].foreignKey.value.table !in tableNames {
      var k :| 0 <= k < |fks| && fks[k].foreignKey.value.table !in tableNames;
      assert fks[k] in fks;
      var i :| 0 <= i < |fields| && fields[i] == fks[k];
    }
  }

  /** A composite PRIMARY KEY is written as one clause over all its columns, not refused. */
  lemma CompositePrimaryKey(bt: char, a: string, b: string)
    ensures PrimaryKeyClause(bt, [a, b]) == "PRIMARY KEY (" + Quoted(bt, a) + ", " + Quoted(bt, b) + "),"
  {
    var q := Quotes(bt, [a, b]);
    assert q == [Quoted(bt, a), Quoted(bt, b)];
    assert q[..1] == [Quoted(bt, a)];
    assert Join(q, ", ") == Quoted(bt, a) + ", " + Quoted(bt, b);
  }

  /** The pieces CreateTableSql is made of, once the field loop and the foreign keys have gone through. */
  lemma CreateTableSqlOk(db: SqlDatabase, name: string, engine: string, fields: seq<Field>,
                         tableNames: map<ClassName, string>, options: Option<OptionsForeignKey>, groupOrder: seq<int>,
                         l: Layout, fks: string, withOptions: string)
    requires IsGroupOrder(groupOrder, CombinationIds(fields))
    requires Scan(db.Backtick(), name, fields) == Ok(l) && CoversGroups(l.groups, groupOrder)
    requires ForeignKeyClauses(db, tableNames, l.foreignKeys) == Ok(fks)
    requires OptionsClause(db, fks, tableNames, options) == Ok(withOptions)
    ensures CreateTableSql(db, name, engine, fields, tableNames, options, groupOrder)
      == Ok(StripTrailingComma(Body(db.Backtick(), name, l, withOptions, EqualsIgnoreCase(engine, "InnoDB"), groupOrder))
            + StatementEnd(db.dialect, engine))
  {
  }

  /** The quoted names joined with ", ", and the first name, as the PRIMARY KEY and UNIQUE KEY loops build them. */
  method QuotedColumns(bt: char, names: seq<string>) returns (columns: string, first: Option<string>)
    ensures columns == Join(Quotes(bt, names), ", ")
    ensures names == [] ==> first.None?
    ensures names != [] ==> first == Some(names[0])
  {
    columns := "";
    first := None;
    var k := 0;
    while k < |names|
      invariant 0 <= k <= |names|
      invariant columns == Join(Quotes(bt, names[..k]), ", ")
      invariant k == 0 ==> first.None?
      invariant k > 0 ==> first == Some(names[0])
    {
      var q := Quotes(bt, names[..k + 1]);
      assert q[..k] == Quotes(bt, names[..k]);
      if k > 0 {
        JoinNonEmpty(q[..k], ", ");
      }
      if columns != "" {
        columns := columns + ", ";
      }
      if first.None? {
        first := Some(names[k]);
      }
      columns := columns + Quoted(bt, names[k]);
      k := k + 1;
    }
    assert names[..k] == names;
  }

  /** The field loop of createTable: the first refused column ends it with its exception. */
  method ScanFields(bt: char, table: string, fields: seq<Field>) returns (r: Result<Layout>)
    ensures r == Scan(bt, table, fields)
  {
    var l := EmptyLayout;
    var i := 0;
    while i < |fields|
      invariant 0 <= i <= |fields|
      invariant Scan(bt, table, fields[..i]) == Ok(l)
    {
      assert fields[..i + 1][..i] == fields[..i];
      var next := ScanField(bt, table, l, fields[i]);
      if next.Err? {
        ScanErrorPersists(bt, table, fields, i + 1);
        return Err(next.error);
      }
      l := next.value;
      i := i + 1;
    }
    assert fields[..i] == fields;
    return Ok(l);
  }

  /** The PRIMARY KEY clause over the primary-key columns, when there are any. */
  method AppendPrimaryKey(sql: string, bt: char, names: seq<string>) returns (s: string)
    ensures s == sql + PrimaryKeyClause(bt, names)
  {
    s := sql;
    if |names| > 0 {
      var columns, _ := QuotedColumns(bt, names);
      s := s + ("PRIMARY KEY (" + columns + "),");
    }
  }

  /** One UNIQUE clause per unique column. */
  method AppendUniques(sql: string, bt: char, names: seq<string>) returns (s: string)
    ensures s == sql + UniqueClauses(bt, names)
  {
    s := sql;
    var j := 0;
    while j < |names|
      invariant 0 <= j <= |names|
      invariant s == sql + UniqueClauses(bt, names[..j])
    {
      assert names[..j + 1][..j] == names[..j];
      AppendAssoc(sql, UniqueClauses(bt, names[..j]), UniqueClause(bt, names[j]));
      s := s + UniqueClause(bt, names[j]);
      j := j + 1;
    }
    assert names[..j] == names;
  }

  /** One UNIQUE KEY clause per combination group, named after the group's first column. */
  method AppendGroups(sql: string, bt: char, groups: map<int, seq<string>>, order: seq<int>) returns (s: string)
    requires CoversGroups(groups, order)
    ensures s == sql + GroupClauses(bt, groups, order)
  {
    s := sql;
    var g := 0;
    while g < |order|
      invariant 0 <= g <= |order|
      invariant s == sql + GroupClauses(bt, groups, order[..g])
    {
      assert order[..g + 1][..g] == order[..g];
      var names := groups[order[g]];
      var columns, first := QuotedColumns(bt, names);
      var clause := "UNIQUE KEY " + Quoted(bt, first.value + "_uk") + " (" + columns + "),";
      assert clause == GroupClause(bt, names);
      AppendAssoc(sql, GroupClauses(bt, groups, order[..g]), clause);
      s := s + clause;
      g := g + 1;
    }
    assert order[..g] == order;
  }

  lemma AppendAssoc(a: string, b: string, c: string)
    ensures a + (b + c) == a + b + c
  {
  }

  /** addForeignKey on a longer text appends the same clause, or fails the same way. */
  lemma AddForeignKeyShift(db: SqlDatabase, sql: string, done: string, name: string, target: ClassName,
                           tableNames: map<ClassName, string>, column: string,
                           onUpdate: CascadeAction.CascadeAction, onDelete: CascadeAction.CascadeAction)
    ensures var shifted := AddForeignKey(db, sql + done, name, target, tableNames, column, onUpdate, onDelete);
      var plain := AddForeignKey(db, done, name, target, tableNames, column, onUpdate, onDelete);
      shifted.Err? == plain.Err?
      && (shifted.Err? ==> shifted.error == plain.error)
      && (shifted.Ok? ==> shifted.value == sql + plain.value)
  {
    var clause := ForeignKeyClause(db.Backtick(), db.tablePrefix, tableNames, name, target, column, onUpdate, onDelete);
    AddForeignKeyAppends(db, sql + done, name, target, tableNames, column, onUpdate, onDelete);
    AddForeignKeyAppends(db, done, name, target, tableNames, column, onUpdate, onDelete);
    if clause.Ok? {
      AppendAssoc(sql, done, clause.value);
    }
  }

  /** addForeignKey appends the clause, or fails with the clause's error. */
  lemma AddForeignKeyAppends(db: SqlDatabase, sql: string, name: string, target: ClassName,
                             tableNames: map<ClassName, string>, column: string,
                             onUpdate: CascadeAction.CascadeAction, onDelete: CascadeAction.CascadeAction)
    ensures var clause := ForeignKeyClause(db.Backtick(), db.tablePrefix, tableNames, name, target, column, onUpdate, onDelete);
      AddForeignKey(db, sql, name, target, tableNames, column, onUpdate, onDelete)
        == if clause.Err? then Err(clause.error) else Ok(sql + clause.value)
  {
  }

  /** The foreign-key loop: addForeignKey for each @ForeignKey column, the first missing TABLE_NAME ending it. */
  method AppendForeignKeys(db: SqlDatabase, sql: string, tableNames: map<ClassName, string>, fks: seq<Field>)
    returns (r: Result<string>)
    requires forall g :: g in fks ==> g.column.Some? && g.foreignKey.Some?
    ensures ForeignKeyClauses(db, tableNames, fks).Err? ==> r == ForeignKeyClauses(db, tableNames, fks)
    ensures ForeignKeyClauses(db, tableNames, fks).Ok? ==> r == Ok(sql + ForeignKeyClauses(db, tableNames, fks).value)
  {
    var s := sql;
    ghost var done := "";
    var k := 0;
    while k < |fks|
      invariant 0 <= k <= |fks|
      invariant ForeignKeyClauses(db, tableNames, fks[..k]) == Ok(done) && s == sql + done
    {
      var f := fks[k];
      var fk := f.foreignKey.value;
      var next := AddForeignKey(db, s, ColumnName(f), fk.table, tableNames, fk.column, fk.onUpdate, fk.onDelete);
      ForeignKeyStep(db, sql, done, tableNames, fks, k);
      if next.Err? {
        return Err(next.error);
      }
      s := next.value;
      done := ForeignKeyClauses(db, tableNames, fks[..k + 1]).value;
      k := k + 1;
    }
    assert fks[..k] == fks;
    return Ok(s);
  }

  /** One pass of the foreign-key loop, after the clauses of the first k fields gave done. */
  lemma ForeignKeyStep(db: SqlDatabase, sql: string, done: string, tableNames: map<ClassName, string>, fks: seq<Field>, k: nat)
    requires forall g :: g in fks ==> g.column.Some? && g.foreignKey.Some?
    requires k < |fks| && ForeignKeyClauses(db, tableNames, fks[..k]) == Ok(done)
    ensures var f := fks[k];
      var fk := f.foreignKey.value;
      var next := AddForeignKey(db, sql + done, ColumnName(f), fk.table, tableNames, fk.column, fk.onUpdate, fk.onDelete);
      (next.Err? ==> ForeignKeyClauses(db, tableNames, fks) == Err(next.error))
      && (next.Ok? ==>
            ForeignKeyClauses(db, tableNames, fks[..k + 1]).Ok?
            && next.value == sql + ForeignKeyClauses(db, tableNames, fks[..k + 1]).value)
  {
    assert fks[..k + 1][..k] == fks[..k];
    var f := fks[k];
    var fk := f.foreignKey.value;
    AddForeignKeyShift(db, sql, done, ColumnName(f), fk.table, tableNames, fk.column, fk.onUpdate, fk.onDelete);
    assert ForeignKeyClauses(db, tableNames, fks[..k + 1])
      == AddForeignKey(db, done, ColumnName(f), fk.table, tableNames, fk.column, fk.onUpdate, fk.onDelete);
    if ForeignKeyClauses(db, tableNames, fks[..k + 1]).Err? {
      ForeignKeyErrorPersists(db, tableNames, fks, k + 1);
    }
  }

  /** The index loop; on InnoDB the foreign-key columns are passed over. */
  method AppendIndexes(sql: string, bt: char, innoDb: bool, fks: seq<Field>, indexes: seq<Field>) returns (s: string)
    requires forall g :: g in indexes ==> g.column.Some? && g.index.Some?
    ensures s == sql + IndexClauses(bt, innoDb, fks, indexes)
  {
    s := sql;
    var m := 0;
    while m < |indexes|
      invariant 0 <= m <= |indexes|
      invariant s == sql + IndexClauses(bt, innoDb, fks, indexes[..m])
    {
      assert indexes[..m + 1][..m] == indexes[..m];
      var f := indexes[m];
      if !(innoDb && f in fks) {
        AppendAssoc(sql, IndexClauses(bt, innoDb, fks, indexes[..m]), IndexClause(bt, f));
        s := s + IndexClause(bt, f);
      }
      m := m + 1;
    }
    assert indexes[..m] == indexes;
  }

  /** The end of createTable: the trailing comma dropped, then ")", the engine where supported, and ";". */
  method FinishStatement(sql: string, d: Dialect, engine: string) returns (s: string)
    ensures s == StripTrailingComma(sql) + StatementEnd(d, engine)
  {
    s := sql;
    if |s| > 0 && s[|s| - 1] == ',' {
      s := s[..|s| - 1];
    }
    s := s + ")";
    if d.supportsEngines {
      s := s + " ENGINE=" + engine;
    }
    s := s + ";";
  }

  /**
   * The statement-building part of createTable, appending to one sql text as the Java
   * method does. It yields the statement CreateTableSql describes, or the same exception.
   */
  method CreateTableStatement(db: SqlDatabase, name: string, engine: string, fields: seq<Field>,
                              tableNames: map<ClassName, string>, options: Option<OptionsForeignKey>,
                              groupOrder: seq<int>) returns (r: Result<string>)
    requires IsGroupOrder(groupOrder, CombinationIds(fields))
    ensures r == CreateTableSql(db, name, engine, fields, tableNames, options, groupOrder)
  {
    var bt := db.Backtick();
    var head := StatementHead(bt, name);
    var scanned := ScanFields(bt, name, fields);
    if scanned.Err? {
      return Err(scanned.error);
    }
    var l := scanned.value;
    GroupOrderCovers(l, groupOrder);
    var sql := head + l.columns;
    sql := AppendPrimaryKey(sql, bt, l.primaryKeys);
    sql := AppendUniques(sql, bt, l.uniqueKeys);
    sql := AppendGroups(sql, bt, l.groups, groupOrder);
    var withFks := AppendForeignKeys(db, sql, tableNames, l.foreignKeys);
    if withFks.Err? {
      return Err(withFks.error);
    }
    ghost var fks := ForeignKeyClauses(db, tableNames, l.foreignKeys).value;
    ghost var withOptions := fks;
    var before := sql;
    sql := withFks.value;
    if options.Some? {
      var o := options.value;
      var next := AddForeignKey(db, sql, "foreignTarget", o.table, tableNames, o.column, o.onUpdate, o.onDelete);
      AddForeignKeyShift(db, before, fks, "foreignTarget", o.table, tableNames, o.column, o.onUpdate, o.onDelete);
      if next.Err? {
        return Err(next.error);
      }
      sql := next.value;
      withOptions := OptionsClause(db, fks, tableNames, options).value;
    }
    assert sql == before + withOptions;
    var innoDb := EqualsIgnoreCase(engine, "InnoDB");
    sql := AppendIndexes(sql, bt, innoDb, l.foreignKeys, l.indexes);
    assert sql == Body(bt, name, l, withOptions, innoDb, groupOrder);
    sql := FinishStatement(sql, db.dialect, engine);
    CreateTableSqlOk(db, name, engine, fields, tableNames, options, groupOrder, l, fks, withOptions);
    return Ok(sql);
  }

  /**
   * createTable on a table: the statement for its prefixed name and engine, run through
   * executeUpdate. A refused statement is never executed and leaves the table as it was.
   * fields stands in for what getFields returns; the model takes it as given and checks nothing about it.
   */
  method CreateTable(t: Table, fields: seq<Field>, tableNames: map<ClassName, string>,
                     options: Option<OptionsForeignKey>, groupOrder: seq<int>,
                     first: ExecOutcome, retry: ExecOutcome) returns (r: Result<()>, executed: Option<string>)
    requires IsGroupOrder(groupOrder, CombinationIds(fields))
    modifies t
    ensures var s := CreateTableSql(t.db, t.GetName(), t.engine, fields, tableNames, options, groupOrder);
      (s.Err? ==> r == Err(s.error) && executed.None? && t.reconnected == old(t.reconnected))
      && (s.Ok? ==>
            executed == Some(s.value)
            && r == UpdateRun(old(t.reconnected), first, retry).0
            && t.reconnected == UpdateRun(old(t.reconnected), first, retry).1)
  {
    var sql := CreateTableStatement(t.db, t.GetName(), t.engine, fields, tableNames, options, groupOrder);
    if sql.Err? {
      return Err(sql.error), None;
    }
    var attempts;
    r, attempts := t.ExecuteUpdate(first, retry);
    executed := Some(sql.value);
  }
}
