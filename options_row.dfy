/**
 * OptionsRow: the row class of an options table, with the public fields id, key, value
 * and foreignTarget, and what createTable and insert make of it.
 */
module OptionsRow {
  import opened Wrappers
  import opened JavaText
  import opened JavaTypes
  import opened StringUtil
  import opened Annotations
  import opened Database
  import opened ReflectionUtil
  import opened AbstractTable
  import opened SqlTranslator
  import opened RowMarshaller
  import opened SchemaGenerator
  import opened RowInsert

  const OptionsRowClass: ClassName := "de.static_interface.sinksql.database.impl.row.OptionsRow"

  /** @Column(autoIncrement = true, primaryKey = true) public Integer id */
  const IdField := Field(OptionsRowClass, "id", Boxed(Int), true,
    Some(DefaultColumn.(autoIncrement := true, primaryKey := true)), None, None, None, false)

  /** @Column public String key: the option key. */
  const KeyField := Field(OptionsRowClass, "key", Str, true, Some(DefaultColumn), None, None, None, false)

  /** @Column public String value: the serialized option value. */
  const ValueField := Field(OptionsRowClass, "value", Str, true, Some(DefaultColumn), None, None, None, false)

  /** @Column @Nullable public Integer foreignTarget: the row of another table the option belongs to. */
  const ForeignTargetField := Field(OptionsRowClass, "foreignTarget", Boxed(Int), true,
    Some(DefaultColumn), None, None, None, true)

  /** The declared fields, in declaration order (the class has no superclass with fields). */
  const OptionsFields := [IdField, KeyField, ValueField, ForeignTargetField]

  /** getIdColumn. */
  const IdColumn := "id"

  /**
   * getId: the id field unboxed to an int, which throws for a null id (a row never
   * inserted, or one whose id was never read back).
   */
  function IdOf(values: map<Field, Value>): (r: Result<int>)
    ensures r == Err(NullPointer) <==> IdField !in values || values[IdField].Null?
    ensures r.Ok? <==> IdField in values && values[IdField].VInt?
    ensures r.Ok? ==> values[IdField] == VInt(r.value)
  {
    var v := if IdField in values then values[IdField] else Null;
    match v
    case Null => Err(NullPointer)
    case VInt(i) => Ok(i)
    case _ => Err(ClassCast("java.lang.Integer"))
  }

  /**
   * After an insert whose generated key reads back as the int k, the row's id is k: the
   * write-back sets the id field alone.
   */
  lemma InsertedRowHasId(h: Hierarchy, values: map<Field, Value>, keys: ResultRow, k: int)
    requires ColumnValue(h, IdField, keys, IdColumn) == Ok(VInt(k))
    ensures IdField in AutoIncrements(OptionsFields)
    ensures WriteBack(h, values, keys, AutoIncrements(OptionsFields), [IdField]) == (None, values[IdField := VInt(k)])
    ensures IdOf(WriteBack(h, values, keys, AutoIncrements(OptionsFields), [IdField]).1) == Ok(k)
  {
    InsertView();
    assert [IdField][..0] == [];
  }

  /** A bare @Column names a column after its field and adds no DEFAULT, COMMENT or key length. */
  lemma BareColumn(c: Column)
    requires c.name == "" && c.defaultValue == "" && c.comment == "" && c.keyLength == -1
    ensures IsEmptyOrNull(Some(c.name)) && KeyLength(c) == "" && DefaultAndComment(c) == ""
  {
    assert IsBlank("");
  }

  /** Each field is its own column: the annotations leave the names blank. */
  lemma FieldNames()
    ensures ColumnName(IdField) == "id" && ColumnName(KeyField) == "key"
    ensures ColumnName(ValueField) == "value" && ColumnName(ForeignTargetField) == "foreignTarget"
  {
    BareColumn(DefaultColumn);
    BareColumn(IdField.column.value);
  }

  /** The prefixes of the field list. */
  lemma FieldPrefixes()
    ensures OptionsFields[..0] == [] && OptionsFields[..1] == [IdField]
    ensures OptionsFields[..2] == [IdField, KeyField] && OptionsFields[..3] == [IdField, KeyField, ValueField]
    ensures OptionsFields[..4] == OptionsFields
  {
  }

  /** insert lists the four fields as columns and reads back the id alone. */
  lemma InsertView()
    ensures InsertColumns(OptionsFields) == ["id", "key", "value", "foreignTarget"]
    ensures AutoIncrements(OptionsFields) == map[IdField := IdColumn]
  {
    FieldNames();
    FieldPrefixes();
    PrefixStep(OptionsFields, 0);
    PrefixStep(OptionsFields, 1);
    PrefixStep(OptionsFields, 2);
    PrefixStep(OptionsFields, 3);
  }

  /** The only order insert can write the generated keys back in is the id alone. */
  lemma OnlyIdWrittenBack(order: seq<Field>)
    ensures IsKeyOrder(order, AutoIncrements(OptionsFields)) <==> order == [IdField]
  {
    InsertView();
    if IsKeyOrder(order, AutoIncrements(OptionsFields)) {
      FirstTwoDistinct(order);
      assert IdField in order;
      assert |order| == 1 && order[0] == IdField;
      assert order == [IdField];
    }
  }

  /** In an order without repetitions the first two entries differ. */
  lemma FirstTwoDistinct(order: seq<Field>)
    requires forall i, j :: 0 <= i < j < |order| ==> order[i] != order[j]
    ensures |order| > 1 ==> order[0] != order[1]
  {
  }

  lemma QuotesText()
    ensures Quotes('`', ["id", "key", "value", "foreignTarget"]) == ["`id`", "`key`", "`value`", "`foreignTarget`"]
  {
    var q := Quotes('`', ["id", "key", "value", "foreignTarget"]);
    assert q[0] == "`id`" && q[1] == "`key`" && q[2] == "`value`" && q[3] == "`foreignTarget`";
  }

  lemma PlaceholdersText()
    ensures Placeholders(4) == "?,?,?,?"
  {
    assert Placeholders(2) == "?,?";
    assert Placeholders(3) == "?,?,?";
  }

  /** Joining after one more text adds the separator and that text. */
  lemma JoinSnoc(xs: seq<string>, x: string, sep: string)
    requires xs != []
    ensures Join(xs + [x], sep) == Join(xs, sep) + sep + x
  {
    assert (xs + [x])[..|xs|] == xs;
  }

  /** Four texts joined: each separator between two neighbours. */
  lemma JoinFour(a: string, b: string, c: string, d: string, sep: string)
    ensures Join([a, b, c, d], sep) == a + sep + b + sep + c + sep + d
  {
    JoinSnoc([a], b, sep);
    JoinSnoc([a, b], c, sep);
    JoinSnoc([a, b, c], d, sep);
    assert [a] + [b] == [a, b] && [a, b] + [c] == [a, b, c] && [a, b, c] + [d] == [a, b, c, d];
  }

  /** The INSERT insert prepares for an options row on MySQL. */
  lemma OptionsInsertSql()
    ensures InsertSql('`', OptionsRowClass, OptionsFields)
      == Ok(InsertPrefix + ("`id`" + ", " + "`key`" + ", " + "`value`" + ", " + "`foreignTarget`") + ") VALUES(" + "?,?,?,?" + ")")
  {
    InsertView();
    QuotesText();
    JoinFour("`id`", "`key`", "`value`", "`foreignTarget`", ", ");
    PlaceholdersText();
  }

  const IdClause := "`id` INT AUTO_INCREMENT NOT NULL,"
  const KeyClause := "`key` VARCHAR(999) NOT NULL,"
  const ValueClause := "`value` VARCHAR(999) NOT NULL,"
  const ForeignTargetClause := "`foreignTarget` INT,"

  /** The clause of a column createTable accepts, part by part. */
  lemma AcceptedClause(table: string, f: Field, ty: string)
    requires f.column.Some? && ToDatabaseType(f) == Ok(ty) && !InvalidColumn(f)
    ensures ColumnClause('`', table, f)
      == Ok(Quoted('`', ColumnName(f)) + " " + ty + NumericModifiers(f.column.value) + NotNull(f.nullable)
            + DefaultAndComment(f.column.value) + ",")
  {
  }

  /** The SQL types: the two Integers are INT, the two Strings VARCHAR(999) (no key column among them). */
  lemma FieldTypes()
    ensures ToDatabaseType(IdField) == Ok("INT") && ToDatabaseType(ForeignTargetField) == Ok("INT")
    ensures ToDatabaseType(KeyField) == Ok("VARCHAR(999)") && ToDatabaseType(ValueField) == Ok("VARCHAR(999)")
  {
    BareColumn(DefaultColumn);
    BareColumn(IdField.column.value);
    assert "INT" + "" == "INT";
  }

  /** Only id carries a modifier; only foreignTarget drops NOT NULL. */
  lemma FieldModifiers()
    ensures NumericModifiers(IdField.column.value) == " AUTO_INCREMENT" && NumericModifiers(DefaultColumn) == ""
    ensures NotNull(false) == " NOT NULL" && NotNull(true) == ""
    ensures DefaultAndComment(IdField.column.value) == "" && DefaultAndComment(DefaultColumn) == ""
  {
    BareColumn(DefaultColumn);
    BareColumn(IdField.column.value);
  }

  lemma IdText()
    ensures Quoted('`', "id") + " " + "INT" + " AUTO_INCREMENT" + " NOT NULL" + "" + "," == IdClause
  {
    assert Quoted('`', "id") + " " + "INT" == "`id` INT";
    assert "`id` INT" + " AUTO_INCREMENT" == "`id` INT AUTO_INCREMENT";
  }

  lemma KeyText()
    ensures Quoted('`', "key") + " " + "VARCHAR(999)" + "" + " NOT NULL" + "" + "," == KeyClause
  {
    assert Quoted('`', "key") + " " + "VARCHAR(999)" == "`key` VARCHAR(999)";
  }

  lemma ValueText()
    ensures Quoted('`', "value") + " " + "VARCHAR(999)" + "" + " NOT NULL" + "" + "," == ValueClause
  {
    assert Quoted('`', "value") + " " + "VARCHAR(999)" == "`value` VARCHAR(999)";
  }

  lemma ForeignTargetText()
    ensures Quoted('`', "foreignTarget") + " " + "INT" + "" + "" + "" + "," == ForeignTargetClause
  {
    assert Quoted('`', "foreignTarget") + " " + "INT" == "`foreignTarget` INT";
  }

  /**
   * The column clauses on MySQL: id is an auto-increment INT, key and value VARCHAR(999),
   * all three NOT NULL; the @Nullable foreignTarget is a plain INT.
   */
  lemma OptionsColumnClauses(table: string)
    ensures ColumnClause('`', table, IdField) == Ok(IdClause)
    ensures ColumnClause('`', table, KeyField) == Ok(KeyClause)
    ensures ColumnClause('`', table, ValueField) == Ok(ValueClause)
    ensures ColumnClause('`', table, ForeignTargetField) == Ok(ForeignTargetClause)
  {
    FieldNames();
    FieldTypes();
    FieldModifiers();
    IdText();
    KeyText();
    ValueText();
    ForeignTargetText();
    AcceptedClause(table, IdField, "INT");
    AcceptedClause(table, KeyField, "VARCHAR(999)");
    AcceptedClause(table, ValueField, "VARCHAR(999)");
    AcceptedClause(table, ForeignTargetField, "INT");
  }

  /** What the field loop collects from an options row. */
  const OptionsLayout := EmptyLayout.(columns := IdClause + KeyClause + ValueClause + ForeignTargetClause, primaryKeys := ["id"])

  /** A plain @Column field (no unique key, foreign key or index) adds its clause and, if primary, its name. */
  lemma ScanPlain(table: string, fields: seq<Field>, l: Layout, clause: string)
    requires fields != [] && Scan('`', table, fields[..|fields| - 1]) == Ok(l)
    requires var f := fields[|fields| - 1];
      f.column.Some? && !f.column.value.uniqueKey && f.uniqueKey.None? && f.foreignKey.None? && f.index.None?
      && ColumnClause('`', table, f) == Ok(clause)
    ensures var f := fields[|fields| - 1];
      Scan('`', table, fields)
        == Ok(l.(columns := l.columns + clause,
                 primaryKeys := l.primaryKeys + (if f.column.value.primaryKey then [ColumnName(f)] else [])))
  {
    var f := fields[|fields| - 1];
    assert l.uniqueKeys + [] + [] == l.uniqueKeys;
    assert l.foreignKeys + [] == l.foreignKeys;
    assert l.indexes + [] == l.indexes;
  }

  /** The layouts after the first one, two and three fields. */
  const AfterId := EmptyLayout.(columns := IdClause, primaryKeys := ["id"])
  const AfterKey := AfterId.(columns := IdClause + KeyClause)
  const AfterValue := AfterId.(columns := IdClause + KeyClause + ValueClause)

  lemma ScanId(table: string)
    ensures Scan('`', table, OptionsFields[..1]) == Ok(AfterId)
  {
    OptionsColumnClauses(table);
    FieldNames();
    FieldPrefixes();
    assert OptionsFields[..1][..0] == [];
    ScanPlain(table, OptionsFields[..1], EmptyLayout, IdClause);
    assert "" + IdClause == IdClause;
    assert [] + ["id"] == ["id"];
  }

  /** A field after the id only adds its clause. */
  lemma ScanNext(table: string, n: nat, before: Layout, clause: string)
    requires 1 <= n <= 3 && before.primaryKeys == ["id"]
    requires ColumnClause('`', table, OptionsFields[n]) == Ok(clause)
    requires Scan('`', table, OptionsFields[..n]) == Ok(before)
    ensures Scan('`', table, OptionsFields[..n + 1]) == Ok(before.(columns := before.columns + clause))
  {
    assert OptionsFields[..n + 1][..n] == OptionsFields[..n];
    ScanPlain(table, OptionsFields[..n + 1], before, clause);
    assert ["id"] + [] == ["id"];
  }

  lemma ScanKey(table: string)
    ensures Scan('`', table, OptionsFields[..2]) == Ok(AfterKey)
  {
    OptionsColumnClauses(table);
    ScanId(table);
    ScanNext(table, 1, AfterId, KeyClause);
    assert AfterId.(columns := AfterId.columns + KeyClause) == AfterKey;
  }

  lemma ScanValue(table: string)
    ensures Scan('`', table, OptionsFields[..3]) == Ok(AfterValue)
  {
    OptionsColumnClauses(table);
    ScanKey(table);
    ScanNext(table, 2, AfterKey, ValueClause);
    assert AfterKey.(columns := AfterKey.columns + ValueClause) == AfterValue;
  }

  lemma ScanForeignTarget(table: string)
    ensures Scan('`', table, OptionsFields[..4]) == Ok(OptionsLayout)
  {
    OptionsColumnClauses(table);
    ScanValue(table);
    ScanNext(table, 3, AfterValue, ForeignTargetClause);
    assert AfterValue.(columns := AfterValue.columns + ForeignTargetClause) == OptionsLayout;
  }

  /** The field loop over an options row collects its four clauses and the id as the primary key. */
  lemma OptionsScan(table: string)
    ensures Scan('`', table, OptionsFields) == Ok(OptionsLayout)
  {
    ScanForeignTarget(table);
    assert OptionsFields[..4] == OptionsFields;
  }

  /** No field of an options row is in a @UniqueKey group. */
  lemma NoGroups()
    ensures CombinationIds(OptionsFields) == {}
  {
    FieldPrefixes();
    var fs := OptionsFields;
    assert fs[..1][..0] == [] && fs[..2][..1] == fs[..1] && fs[..3][..2] == fs[..2] && fs[..3] == fs[..|fs| - 1];
    assert CombinationIds(OptionsFields[..1]) == {};
    assert CombinationIds(OptionsFields[..2]) == {};
    assert CombinationIds(OptionsFields[..3]) == {};
  }

  /** The statement body: the head, the four clauses and the primary key. */
  lemma OptionsBody(name: string)
    ensures Body('`', name, OptionsLayout, "", true, [])
      == StatementHead('`', name) + (IdClause + KeyClause + ValueClause + ForeignTargetClause) + "PRIMARY KEY (`id`),"
  {
    var l := OptionsLayout;
    assert PrimaryKeyClause('`', ["id"]) == "PRIMARY KEY (`id`),";
    var x := StatementHead('`', name) + l.columns + "PRIMARY KEY (`id`),";
    assert x + "" + "" + "" + "" == x;
  }

  /** Dropping the comma appended last. */
  lemma StripAppendedComma(x: string)
    ensures StripTrailingComma(x + ",") == x
  {
    assert (x + ",")[..|x|] == x;
  }

  /**
   * The CREATE TABLE createTable executes for an options table on MySQL with InnoDB, an
   * options row having no foreign key, index or unique key of its own.
   */
  lemma OptionsCreateTable(db: SqlDatabase, name: string, tableNames: map<ClassName, string>)
    requires db.dialect == MySql
    ensures CombinationIds(OptionsFields) == {}
    ensures CreateTableSql(db, name, "InnoDB", OptionsFields, tableNames, None, [])
      == Ok(StatementHead('`', name) + IdClause + KeyClause + ValueClause + ForeignTargetClause
            + "PRIMARY KEY (`id`)" + ") ENGINE=InnoDB;")
  {
    NoGroups();
    OptionsParts(db, name, tableNames);
    OptionsBody(name);
    StatementAssoc(StatementHead('`', name));
  }

  /** The pieces createTable assembles for an options table on MySQL with InnoDB. */
  lemma OptionsParts(db: SqlDatabase, name: string, tableNames: map<ClassName, string>)
    requires db.dialect == MySql
    ensures db.Backtick() == '`'
    ensures Scan('`', name, OptionsFields) == Ok(OptionsLayout)
    ensures ForeignKeyClauses(db, tableNames, []) == Ok("")
    ensures EqualsIgnoreCase("InnoDB", "InnoDB")
    ensures StatementEnd(db.dialect, "InnoDB") == ") ENGINE=InnoDB;"
  {
    OptionsScan(name);
  }

  /** Regrouping the statement text. */
  lemma StatementAssoc(head: string)
    ensures var cols := IdClause + KeyClause + ValueClause + ForeignTargetClause;
      StripTrailingComma(head + cols + "PRIMARY KEY (`id`),") + ") ENGINE=InnoDB;"
        == head + IdClause + KeyClause + ValueClause + ForeignTargetClause + "PRIMARY KEY (`id`)" + ") ENGINE=InnoDB;"
  {
    var cols := IdClause + KeyClause + ValueClause + ForeignTargetClause;
    var stripped := head + cols + "PRIMARY KEY (`id`)";
    assert stripped + "," == head + cols + "PRIMARY KEY (`id`),";
    StripAppendedComma(stripped);
  }
}
