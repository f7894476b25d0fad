/**
 * SqlDatabase.insert: the INSERT statement of a row class, the values bound to it, and
 * the write-back of the generated auto-increment keys into the inserted row.
 */
module RowInsert {
  import opened Wrappers
  import opened JavaText
  import opened JavaTypes
  import opened ReflectionUtil
  import opened StringUtil
  import opened Annotations
  import opened AbstractTable
  import opened RowMarshaller
  import opened SqlTranslator
  import opened SchemaGenerator

  /** The start of every INSERT: the table placeholder is always quoted with a MySQL backtick. */
  const InsertPrefix := "INSERT INTO `{TABLE}` ("

  const NoPublicFields := " doesn't have any public fields!"

  /** The column names of the @Column fields, in field order. */
  function InsertColumns(fields: seq<Field>): (r: seq<string>)
    ensures |r| <= |fields|
  {
    if fields == [] then []
    else
      var f := fields[|fields| - 1];
      InsertColumns(fields[..|fields| - 1]) + (if f.column.Some? then [ColumnName(f)] else [])
  }

  /** The number of @Column fields. */
  function ColumnCount(fields: seq<Field>): nat
  {
    if fields == [] then 0
    else ColumnCount(fields[..|fields| - 1]) + (if fields[|fields| - 1].column.Some? then 1 else 0)
  }

  /** The auto-increment @Column fields, each mapped to its column name (the autoIncrements HashMap). */
  function AutoIncrements(fields: seq<Field>): map<Field, string>
  {
    if fields == [] then map[]
    else
      var f := fields[|fields| - 1];
      var m := AutoIncrements(fields[..|fields| - 1]);
      if f.column.Some? && f.column.value.autoIncrement then m[f := ColumnName(f)] else m
  }

  /** n placeholders: "?" and then ",?" for each further one. */
  function Placeholders(n: nat): string
  {
    if n == 0 then "" else if n == 1 then "?" else Placeholders(n - 1) + ",?"
  }

  /**
   * The statement insert prepares for a row class with these fields (getAllFields order),
   * or the exception for a class without any @Column field.
   */
  function InsertSql(bt: char, rowClass: ClassName, fields: seq<Field>): (r: Result<string>)
  {
    var names := InsertColumns(fields);
    if names == [] then Err(IllegalState(rowClass + NoPublicFields))
    else Ok(InsertPrefix + Join(Quotes(bt, names), ", ") + ") VALUES(" + Placeholders(|names|) + ")")
  }

  /** Java's initial value of a field never assigned. */
  function DefaultValue(k: TypeKind): (v: Value)
    ensures !k.Prim? ==> v.Null?
    ensures k.Prim? ==> !v.Null? && IsObject(v)
  {
    match k
    case Prim(Boolean) => VBool(false)
    case Prim(Char) => VChar(0 as char)
    case Prim(Byte) => VByte(0)
    case Prim(Short) => VShort(0)
    case Prim(Int) => VInt(0)
    case Prim(Long) => VLong(0)
    case Prim(Float) => VObj(Boxed(Float), "0.0")
    case Prim(Double) => VObj(Boxed(Double), "0.0")
    case _ => Null
  }

  /** Field.get on the row: its current value, which a non-public field does not give out. */
  function FieldValue(values: map<Field, Value>, f: Field): Result<Value>
  {
    if !f.isPublic then Err(Runtime("IllegalAccessException"))
    else Ok(if f in values then values[f] else DefaultValue(f.fieldType))
  }

  /** The values bound to the statement: one per field, @Column or not, in field order. */
  function Bindings(values: map<Field, Value>, fields: seq<Field>): Result<seq<Value>>
  {
    if fields == [] then Ok([])
    else
      var done :- Bindings(values, fields[..|fields| - 1]);
      var v :- FieldValue(values, fields[|fields| - 1]);
      Ok(done + [v])
  }

  /** The generated-keys row rs.next() moves to; without one every column read fails. */
  function KeysRow(rows: seq<ResultRow>): ResultRow
  {
    if rows == [] then [] else rows[0]
  }

  /**
   * The write-back loop over the auto-increment fields in the order given: the row's
   * values afterwards, and the exception that stopped the loop, if any.
   */
  function WriteBack(h: Hierarchy, values: map<Field, Value>, keys: ResultRow, auto: map<Field, string>,
                     order: seq<Field>): (Option<Exception>, map<Field, Value>)
    requires forall i :: 0 <= i < |order| ==> order[i] in auto
  {
    if order == [] then (None, values)
    else
      var (err, done) := WriteBack(h, values, keys, auto, order[..|order| - 1]);
      if err.Some? then (err, done)
      else
        var f := order[|order| - 1];
        var v := ColumnValue(h, f, keys, auto[f]);
        if v.Err? then (Some(v.error), done) else (None, done[f := v.value])
  }

  /** An iteration order of the auto-increment fields: each once. */
  predicate IsKeyOrder(order: seq<Field>, auto: map<Field, string>)
  {
    (forall i :: 0 <= i < |order| ==> order[i] in auto)
    && (forall f :: f in auto ==> f in order)
    && forall i, j :: 0 <= i < j < |order| ==> order[i] != order[j]
  }

  // ---------------------------------------------------------------------------------------
  // Properties of the statement

  /** The column list has one name per @Column field. */
  lemma {:induction false} InsertColumnsCount(fields: seq<Field>)
    ensures |InsertColumns(fields)| == ColumnCount(fields)
  {
    if fields != [] {
      InsertColumnsCount(fields[..|fields| - 1]);
    }
  }

  /** The column list holds exactly the names of the @Column fields. */
  lemma {:induction false} InsertColumnsAreColumns(fields: seq<Field>)
    ensures forall n :: n in InsertColumns(fields) <==>
      exists i :: 0 <= i < |fields| && fields[i].column.Some? && ColumnName(fields[i]) == n
  {
    if fields != [] {
      var init := fields[..|fields| - 1];
      var f := fields[|fields| - 1];
      InsertColumnsAreColumns(init);
      forall n | n in InsertColumns(fields)
        ensures exists i :: 0 <= i < |fields| && fields[i].column.Some? && ColumnName(fields[i]) == n
      {
        if n in InsertColumns(init) {
          var i :| 0 <= i < |init| && init[i].column.Some? && ColumnName(init[i]) == n;
          assert fields[i] == init[i];
        } else {
          assert fields[|init|] == f;
        }
      }
      forall n | exists i :: 0 <= i < |fields| && fields[i].column.Some? && ColumnName(fields[i]) == n
        ensures n in InsertColumns(fields)
      {
        var i :| 0 <= i < |fields| && fields[i].column.Some? && ColumnName(fields[i]) == n;
        if i < |init| {
          assert init[i] == fields[i];
        }
      }
    }
  }

  /** n placeholders alternate '?' and ',', starting and ending with '?'. */
  lemma {:induction false} PlaceholdersShape(n: nat)
    requires n > 0
    ensures |Placeholders(n)| == 2 * n - 1
    ensures forall i :: 0 <= i < |Placeholders(n)| ==> Placeholders(n)[i] == (if i % 2 == 0 then '?' else ',')
  {
    if n > 1 {
      PlaceholdersShape(n - 1);
    }
  }

  /** The number of '?' in a text. */
  function Marks(s: string): nat
  {
    if s == [] then 0 else Marks(s[..|s| - 1]) + (if s[|s| - 1] == '?' then 1 else 0)
  }

  /** n placeholders are n question marks. */
  lemma {:induction false} PlaceholdersCount(n: nat)
    ensures Marks(Placeholders(n)) == n
  {
    if n > 1 {
      PlaceholdersCount(n - 1);
      var p := Placeholders(n - 1);
      var q := p + ",?";
      assert q[..|q| - 1] == p + ",";
      assert (p + ",")[..|p|] == p;
    }
  }

  /**
   * The statement is refused exactly when the class has no @Column field; otherwise it
   * has one placeholder per @Column field.
   */
  lemma InsertFailsIff(bt: char, rowClass: ClassName, fields: seq<Field>)
    ensures InsertSql(bt, rowClass, fields).Err? <==> forall i :: 0 <= i < |fields| ==> fields[i].column.None?
    ensures InsertSql(bt, rowClass, fields).Err? ==>
      InsertSql(bt, rowClass, fields).error == IllegalState(rowClass + " doesn't have any public fields!")
  {
    NoColumnsIff(fields);
  }

  lemma {:induction false} NoColumnsIff(fields: seq<Field>)
    ensures InsertColumns(fields) == [] <==> forall i :: 0 <= i < |fields| ==> fields[i].column.None?
  {
    if fields != [] {
      var init := fields[..|fields| - 1];
      NoColumnsIff(init);
      assert forall i :: 0 <= i < |init| ==> init[i] == fields[i];
    }
  }

  /** One placeholder per @Column field. */
  lemma PlaceholdersPerColumn(bt: char, rowClass: ClassName, fields: seq<Field>)
    requires InsertSql(bt, rowClass, fields).Ok?
    ensures var s := InsertSql(bt, rowClass, fields).value;
      var p := Placeholders(ColumnCount(fields));
      |s| > |p| + 1 && s[|s| - |p| - 1..|s| - 1] == p && Marks(p) == ColumnCount(fields)
  {
    InsertColumnsCount(fields);
    PlaceholdersCount(ColumnCount(fields));
    var names := InsertColumns(fields);
    var p := Placeholders(|names|);
    var a := InsertPrefix + Join(Quotes(bt, names), ", ") + ") VALUES(";
    assert InsertSql(bt, rowClass, fields).value == a + p + ")";
    assert (a + p + ")")[|a|..|a| + |p|] == p;
  }

  /** No '{' in any of the texts. */
  predicate NoBrace(xs: seq<string>)
  {
    forall i :: 0 <= i < |xs| ==> '{' !in xs[i]
  }

  /** Joining texts without '{' by ", " makes none. */
  lemma {:induction false} JoinNoBrace(xs: seq<string>)
    requires NoBrace(xs)
    ensures '{' !in Join(xs, ", ")
  {
    if |xs| > 1 {
      JoinNoBrace(xs[..|xs| - 1]);
    }
  }

  /**
   * Once prepared for a table, the statement names it between MySQL backticks, whatever
   * the dialect's own quote character, when no column name holds a '{'.
   */
  lemma InsertNamesTable(bt: char, rowClass: ClassName, fields: seq<Field>, tableName: string)
    requires InsertSql(bt, rowClass, fields).Ok?
    requires bt != '{' && forall n :: n in InsertColumns(fields) ==> '{' !in n
    ensures var names := InsertColumns(fields);
      SubstituteTable(InsertSql(bt, rowClass, fields).value, tableName)
        == "INSERT INTO `" + tableName + "` (" + Join(Quotes(bt, names), ", ") + ") VALUES(" + Placeholders(|names|) + ")"
  {
    var names := InsertColumns(fields);
    var j := Join(Quotes(bt, names), ", ");
    var p := Placeholders(|names|);
    QuotedNamesNoBrace(bt, names);
    PlaceholdersShape(|names|);
    assert '{' !in p;
    var after := "` (" + j + ") VALUES(" + p + ")";
    NoBraceAfter(j, p);
    InsertSqlSplit(bt, rowClass, fields);
    NoneBeforeWithoutHead("INSERT INTO `", TablePlaceholder, after);
    AbsentWithoutHead(after, TablePlaceholder);
    SubstituteTablePlacesName("INSERT INTO `", after, tableName);
    AppendTail("INSERT INTO `" + tableName, "` (", j, ") VALUES(", p, ")");
  }

  lemma AppendTail(a: string, b: string, c: string, d: string, e: string, f: string)
    ensures a + (b + c + d + e + f) == a + b + c + d + e + f
  {
  }

  lemma QuotedNamesNoBrace(bt: char, names: seq<string>)
    requires bt != '{' && forall n :: n in names ==> '{' !in n
    ensures '{' !in Join(Quotes(bt, names), ", ")
  {
    var q := Quotes(bt, names);
    forall i | 0 <= i < |q| ensures '{' !in q[i] {
      assert names[i] in names;
    }
    JoinNoBrace(q);
  }

  lemma NoBraceAfter(j: string, p: string)
    requires '{' !in j && '{' !in p
    ensures '{' !in "` (" + j + ") VALUES(" + p + ")"
  {
  }

  /** The statement is the MySQL-quoted placeholder between its two fixed halves. */
  lemma InsertSqlSplit(bt: char, rowClass: ClassName, fields: seq<Field>)
    requires InsertSql(bt, rowClass, fields).Ok?
    ensures var names := InsertColumns(fields);
      InsertSql(bt, rowClass, fields).value
        == "INSERT INTO `" + TablePlaceholder + ("` (" + Join(Quotes(bt, names), ", ") + ") VALUES(" + Placeholders(|names|) + ")")
  {
  }

  // ---------------------------------------------------------------------------------------
  // Properties of the bindings

  /** Binding succeeds exactly when every field is public; then it lists every field's value in order. */
  lemma {:induction false} BindingsOfAllFields(values: map<Field, Value>, fields: seq<Field>)
    ensures Bindings(values, fields).Ok? <==> forall i :: 0 <= i < |fields| ==> fields[i].isPublic
    ensures Bindings(values, fields).Ok? ==>
      |Bindings(values, fields).value| == |fields|
      && forall i :: 0 <= i < |fields| ==> Ok(Bindings(values, fields).value[i]) == FieldValue(values, fields[i])
  {
    if fields != [] {
      var init := fields[..|fields| - 1];
      BindingsOfAllFields(values, init);
      forall i | 0 <= i < |init| ensures init[i] == fields[i] {}
    }
  }

  /**
   * A row class with a public field that is not a @Column binds more values than the
   * statement has placeholders.
   */
  lemma MoreBindingsThanPlaceholders(values: map<Field, Value>, fields: seq<Field>, j: int)
    requires forall i :: 0 <= i < |fields| ==> fields[i].isPublic
    requires 0 <= j < |fields| && fields[j].column.None?
    ensures Bindings(values, fields).Ok? && |Bindings(values, fields).value| > ColumnCount(fields)
  {
    BindingsOfAllFields(values, fields);
    FewerColumns(fields, j);
  }

  /** A field without @Column leaves fewer columns than fields. */
  lemma {:induction false} FewerColumns(fields: seq<Field>, j: int)
    requires 0 <= j < |fields| && fields[j].column.None?
    ensures ColumnCount(fields) < |fields|
  {
    var init := fields[..|fields| - 1];
    ColumnsAtMostFields(init);
    if j < |init| {
      assert init[j] == fields[j];
      FewerColumns(init, j);
    }
  }

  lemma {:induction false} ColumnsAtMostFields(fields: seq<Field>)
    ensures ColumnCount(fields) <= |fields|
  {
    if fields != [] {
      ColumnsAtMostFields(fields[..|fields| - 1]);
    }
  }

  // ---------------------------------------------------------------------------------------
  // Properties of the write-back

  /** Fields outside the order are left as they were. */
  lemma {:induction false} WriteBackKeepsOthers(h: Hierarchy, values: map<Field, Value>, keys: ResultRow,
                                                auto: map<Field, string>, order: seq<Field>, g: Field)
    requires forall i :: 0 <= i < |order| ==> order[i] in auto
    requires g !in order
    ensures var done := WriteBack(h, values, keys, auto, order).1;
      (g in done <==> g in values) && (g in values ==> done[g] == values[g])
  {
    if order != [] {
      var init := order[..|order| - 1];
      WriteBackKeepsOthers(h, values, keys, auto, init, g);
    }
  }

  /** A write-back that went through gives each field in the order the key read from its column. */
  lemma {:induction false} WriteBackSetsKeys(h: Hierarchy, values: map<Field, Value>, keys: ResultRow,
                                             auto: map<Field, string>, order: seq<Field>, i: int)
    requires forall k :: 0 <= k < |order| ==> order[k] in auto
    requires 0 <= i < |order| && WriteBack(h, values, keys, auto, order).0.None?
    ensures var done := WriteBack(h, values, keys, auto, order).1;
      order[i] in done && Ok(done[order[i]]) == ColumnValue(h, order[i], keys, auto[order[i]])
  {
    var init := order[..|order| - 1];
    var f := order[|order| - 1];
    if i < |init| && f != order[i] {
      assert init[i] == order[i];
      WriteBackSetsKeys(h, values, keys, auto, init, i);
    }
  }

  /** Exactly the @Column fields with autoIncrement are written back, under their column names. */
  lemma {:induction false} AutoIncrementsAreAutoIncrementColumns(fields: seq<Field>)
    ensures forall f :: f in AutoIncrements(fields) <==> f in fields && f.column.Some? && f.column.value.autoIncrement
    ensures forall f :: f in AutoIncrements(fields) ==> AutoIncrements(fields)[f] == ColumnName(f)
  {
    if fields != [] {
      AutoIncrementsAreAutoIncrementColumns(fields[..|fields| - 1]);
      assert forall g :: g in fields <==> g in fields[..|fields| - 1] || g == fields[|fields| - 1];
    }
  }

  // ---------------------------------------------------------------------------------------
  // The imperative insert

  /**
   * The first two loops of insert: the quoted column list with its counter i and the
   * autoIncrements map, the refusal of a class without columns, then the placeholder loop.
   */
  method BuildInsert(bt: char, rowClass: ClassName, fields: seq<Field>)
    returns (r: Result<string>, autoIncrements: map<Field, string>)
    ensures r == InsertSql(bt, rowClass, fields)
    ensures autoIncrements == AutoIncrements(fields)
  {
    var columns := "";
    var i := 0;
    autoIncrements := map[];
    var n := 0;
    while n < |fields|
      invariant 0 <= n <= |fields|
      invariant i == |InsertColumns(fields[..n])|
      invariant columns == Join(Quotes(bt, InsertColumns(fields[..n])), ", ")
      invariant autoIncrements == AutoIncrements(fields[..n])
    {
      var f := fields[n];
      PrefixStep(fields, n);
      if f.column.Some? {
        var name := ColumnName(f);
        if f.column.value.autoIncrement {
          autoIncrements := autoIncrements[f := name];
        }
        JoinQuotesSnoc(bt, InsertColumns(fields[..n]), name);
        var quoted := Quoted(bt, name);
        ghost var prev := InsertColumns(fields[..n]);
        assert InsertColumns(fields[..n + 1]) == prev + [name];
        if i == 0 {
          assert prev == [];
          columns := quoted;
        } else {
          assert prev != [];
          columns := columns + ", " + quoted;
        }
        assert columns == Join(Quotes(bt, prev + [name]), ", ");
        i := i + 1;
      } else {
        assert InsertColumns(fields[..n + 1]) == InsertColumns(fields[..n]);
      }
      n := n + 1;
    }
    assert fields[..n] == fields;
    if i == 0 {
      return Err(IllegalState(rowClass + NoPublicFields)), autoIncrements;
    }
    var placeholders := "";
    var k := 0;
    while k < i
      invariant 0 <= k <= i
      invariant placeholders == Placeholders(k)
    {
      if k == 0 {
        placeholders := "?";
      } else {
        placeholders := placeholders + ",?";
      }
      k := k + 1;
    }
    r := Ok(InsertPrefix + columns + ") VALUES(" + placeholders + ")");
  }

  /** One more field extends the column list and the auto-increment map by that field alone. */
  lemma PrefixStep(fields: seq<Field>, n: nat)
    requires n < |fields|
    ensures var f := fields[n];
      InsertColumns(fields[..n + 1]) == InsertColumns(fields[..n]) + (if f.column.Some? then [ColumnName(f)] else [])
      && AutoIncrements(fields[..n + 1])
        == if f.column.Some? && f.column.value.autoIncrement then AutoIncrements(fields[..n])[f := ColumnName(f)]
           else AutoIncrements(fields[..n])
  {
    assert fields[..n + 1][..n] == fields[..n];
  }

  /** Joining the quoted names after one more name adds ", " and its quoted form, or is it alone. */
  lemma JoinQuotesSnoc(bt: char, names: seq<string>, name: string)
    ensures Join(Quotes(bt, names + [name]), ", ")
      == if names == [] then Quoted(bt, name) else Join(Quotes(bt, names), ", ") + ", " + Quoted(bt, name)
  {
    var q := Quotes(bt, names + [name]);
    assert q[..|names|] == Quotes(bt, names);
  }

  /** The bind loop: f.get(row) for every field, the first non-public one raising. */
  method CollectBindings(row: RowInstance, fields: seq<Field>) returns (r: Result<seq<Value>>)
    ensures r == Bindings(row.values, fields)
  {
    var values: seq<Value> := [];
    var n := 0;
    while n < |fields|
      invariant 0 <= n <= |fields|
      invariant Bindings(row.values, fields[..n]) == Ok(values)
    {
      assert fields[..n + 1][..n] == fields[..n];
      var v := FieldValue(row.values, fields[n]);
      if v.Err? {
        BindingsErrorPersists(row.values, fields, n + 1);
        return Err(v.error);
      }
      values := values + [v.value];
      n := n + 1;
    }
    assert fields[..n] == fields;
    return Ok(values);
  }

  lemma {:induction false} BindingsErrorPersists(values: map<Field, Value>, fields: seq<Field>, n: nat)
    requires n <= |fields| && Bindings(values, fields[..n]).Err?
    ensures Bindings(values, fields) == Bindings(values, fields[..n])
    decreases |fields| - n
  {
    if n < |fields| {
      assert fields[..|fields| - 1][..n] == fields[..n];
      BindingsErrorPersists(values, fields[..|fields| - 1], n);
    } else {
      assert fields[..n] == fields;
    }
  }

  /** The write-back loop: setFieldFromResultSet for each auto-increment field in the order given. */
  method WriteBackKeys(h: Hierarchy, row: RowInstance, keys: ResultRow, auto: map<Field, string>, order: seq<Field>)
    returns (err: Option<Exception>)
    requires forall i :: 0 <= i < |order| ==> order[i] in auto
    modifies row
    ensures (err, row.values) == WriteBack(h, old(row.values), keys, auto, order)
  {
    var k := 0;
    while k < |order|
      invariant 0 <= k <= |order|
      invariant (None, row.values) == WriteBack(h, old(row.values), keys, auto, order[..k])
    {
      assert order[..k + 1][..k] == order[..k];
      var f := order[k];
      var r := SetFieldFromResultSet(h, row, keys, f, auto[f]);
      if r.Err? {
        WriteBackErrorPersists(h, old(row.values), keys, auto, order, k + 1);
        return Some(r.error);
      }
      k := k + 1;
    }
    assert order[..k] == order;
    return None;
  }

  lemma {:induction false} WriteBackErrorPersists(h: Hierarchy, values: map<Field, Value>, keys: ResultRow,
                                                  auto: map<Field, string>, order: seq<Field>, n: nat)
    requires forall i :: 0 <= i < |order| ==> order[i] in auto
    requires n <= |order| && WriteBack(h, values, keys, auto, order[..n]).0.Some?
    ensures WriteBack(h, values, keys, auto, order) == WriteBack(h, values, keys, auto, order[..n])
    decreases |order| - n
  {
    if n < |order| {
      assert order[..|order| - 1][..n] == order[..n];
      WriteBackErrorPersists(h, values, keys, auto, order[..|order| - 1], n);
    } else {
      assert order[..n] == order;
    }
  }

  /**
   * insert(table, row): the statement for the row class's fields (getAllFields of the
   * declared fields), prepared for the table with every field's value bound, executed
   * directly (no reconnect), then the auto-increment fields read back from the generated
   * keys in keyOrder, the HashMap's iteration order. Yields the row itself, the executed
   * statement and its bindings.
   */
  method Insert(t: Table, h: Hierarchy, declared: map<ClassName, seq<Field>>, row: RowInstance?,
                outcome: ExecOutcome, keyOrder: seq<Field>)
    returns (r: Result<RowInstance>, statement: Option<string>, bindings: seq<Value>)
    requires IsKeyOrder(keyOrder, AutoIncrements(AllFields(h, declared, t.rowClass)))
    modifies row
    ensures row == null ==> r == Err(NullPointer) && statement.None?
    ensures row != null ==>
      var fields := AllFields(h, declared, t.rowClass);
      var sql := InsertSql(t.db.Backtick(), t.rowClass, fields);
      var b := Bindings(old(row.values), fields);
      (sql.Err? ==> r == Err(sql.error) && statement.None? && row.values == old(row.values))
      && (sql.Ok? && b.Err? ==> r == Err(b.error) && statement.None? && row.values == old(row.values))
      && (sql.Ok? && b.Ok? ==>
            statement == Some(SubstituteTable(sql.value, t.GetName())) && bindings == b.value
            && (!outcome.Success? ==> r == Err(Runtime("SQLException")) && row.values == old(row.values))
            && (outcome.Success? ==>
                  var (err, done) := WriteBack(h, old(row.values), KeysRow(outcome.rows), AutoIncrements(fields), keyOrder);
                  row.values == done && (err.None? ==> r == Ok(row)) && (err.Some? ==> r == Err(err.value))))
  {
    bindings := [];
    if row == null {
      return Err(NullPointer), None, bindings;
    }
    var fields := GetAllFields(h, declared, t.rowClass);
    var sql, autoIncrements := BuildInsert(t.db.Backtick(), t.rowClass, fields);
    if sql.Err? {
      return Err(sql.error), None, bindings;
    }
    var b := CollectBindings(row, fields);
    if b.Err? {
      return Err(b.error), None, bindings;
    }
    bindings := b.value;
    statement := Some(SubstituteTable(sql.value, t.GetName()));
    if !outcome.Success? {
      return Err(Runtime("SQLException")), statement, bindings;
    }
    var err := WriteBackKeys(h, row, KeysRow(outcome.rows), autoIncrements, keyOrder);
    if err.Some? {
      return Err(err.value), statement, bindings;
    }
    return Ok(row), statement, bindings;
  }
}
