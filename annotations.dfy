/**
 * The field annotations a row class uses to describe its table (@Column, @ForeignKey,
 * @Index, @UniqueKey, @Nullable) and the reflective view of one field.
 */
module Annotations {
  import opened Wrappers
  import opened JavaTypes
  import opened StringUtil
  import opened CascadeAction

  /** @Column with its attributes. */
  datatype Column = Column(
    name: string,
    autoIncrement: bool,
    primaryKey: bool,
    uniqueKey: bool,
    comment: string,
    defaultValue: string,
    unsigned: bool,
    zerofill: bool,
    keyLength: int)

  /** A bare @Column: every attribute at its declared default. */
  const DefaultColumn := Column("", false, false, false, "", "", false, false, -1)

  /** @ForeignKey: the referenced table class and column, and the referential actions. */
  datatype ForeignKey = ForeignKey(table: ClassName, column: string, onDelete: CascadeAction, onUpdate: CascadeAction)

  /** @ForeignKey(table = ..., column = ...) with both actions at their default, RESTRICT. */
  function DefaultForeignKey(table: ClassName, column: string): ForeignKey
  {
    ForeignKey(table, column, Restrict, Restrict)
  }

  /** @Index, whose name defaults to "". */
  datatype Index = Index(name: string)

  const DefaultIndex := Index("")

  /** @UniqueKey: fields sharing a combinationId form one composite unique key. */
  datatype UniqueKey = UniqueKey(combinationId: int)

  datatype AnnotationType = ColumnType | ForeignKeyType | IndexType | UniqueKeyType | NullableType

  datatype Annotation =
    | AColumn(column: Column)
    | AForeignKey(foreignKey: ForeignKey)
    | AIndex(index: Index)
    | AUniqueKey(uniqueKey: UniqueKey)
    | ANullable

  function TypeOf(a: Annotation): AnnotationType
  {
    match a
    case AColumn(_) => ColumnType
    case AForeignKey(_) => ForeignKeyType
    case AIndex(_) => IndexType
    case AUniqueKey(_) => UniqueKeyType
    case ANullable => NullableType
  }

  /**
   * A java.lang.reflect.Field: where it is declared, its name and type, whether it is
   * public, and the annotations present on it (each at most once).
   */
  datatype Field = Field(
    declaringClass: ClassName,
    name: string,
    fieldType: TypeKind,
    isPublic: bool,
    column: Option<Column>,
    foreignKey: Option<ForeignKey>,
    index: Option<Index>,
    uniqueKey: Option<UniqueKey>,
    nullable: bool)

  /** Field.getAnnotation: the annotation of the requested type, or null. */
  function AnnotationOf(f: Field, t: AnnotationType): (r: Option<Annotation>)
    ensures r.Some? ==> TypeOf(r.value) == t
  {
    match t
    case ColumnType => if f.column.Some? then Some(AColumn(f.column.value)) else None
    case ForeignKeyType => if f.foreignKey.Some? then Some(AForeignKey(f.foreignKey.value)) else None
    case IndexType => if f.index.Some? then Some(AIndex(f.index.value)) else None
    case UniqueKeyType => if f.uniqueKey.Some? then Some(AUniqueKey(f.uniqueKey.value)) else None
    case NullableType => if f.nullable then Some(ANullable) else None
  }

  /**
   * The SQL column name of a @Column field: the annotation's name unless it is blank,
   * in which case the field's own name.
   */
  function ColumnName(f: Field): (r: string)
    requires f.column.Some?
  {
    if IsEmptyOrNull(Some(f.column.value.name)) then f.name else f.column.value.name
  }

  /** A bare @Column maps the field to a column of the same name. */
  lemma DefaultColumnNamesAfterField(f: Field)
    requires f.column == Some(DefaultColumn)
    ensures ColumnName(f) == f.name
  {
  }

  /** A column name set on the annotation wins exactly when it is not blank. */
  lemma ColumnNameChoice(f: Field)
    requires f.column.Some?
    ensures ColumnName(f) == f.column.value.name <==>
      (exists i :: 0 <= i < |f.column.value.name| && !JavaText.IsTrimmable(f.column.value.name[i])) || f.name == f.column.value.name
  {
  }
}
