/**
 * Deserialisation of result rows into row objects (AbstractTable.setFieldFromResultSet,
 * setFieldsFromResultSet, deserializeResultSet and get).
 */
module RowMarshaller {
  import opened Wrappers
  import opened JavaTypes
  import opened ReflectionUtil
  import opened Annotations
  import opened AbstractTable

  /** An instance of a row class: the value of each field that has been set (absent: Java's default). */
  class RowInstance {
    var values: map<Field, Value>

    constructor ()
      ensures values == map[]
    {
      values := map[];
    }
  }

  /**
   * Two's-complement narrowing into the range [-half, half), as byteValue (half = 2^7),
   * shortValue (2^15) and intValue (2^31) do.
   */
  function Narrow(n: int, half: int): (r: int)
    requires half > 0
    ensures -half <= r < half
  {
    (n + half) % (2 * half) - half
  }

  const ByteHalf := 0x80
  const ShortHalf := 0x8000
  const IntHalf := 0x8000_0000

  /** A non-zero multiple of a positive m is at least m away from zero. */
  lemma MultipleBounds(q: int, m: int)
    requires m > 0
    ensures q >= 1 ==> q * m >= m
    ensures q <= -1 ==> q * m <= -m
  {
    if q >= 1 {
      assert q * m == (q - 1) * m + m;
    } else if q <= -1 {
      assert q * m == (q + 1) * m - m;
    }
  }

  /** Narrowing keeps every value that fits, and otherwise differs from it by a multiple of 2 * half. */
  lemma NarrowKeepsFittingValues(n: int, half: int)
    requires half > 0
    ensures -half <= n < half ==> Narrow(n, half) == n
    ensures n - Narrow(n, half) == ((n + half) / (2 * half)) * (2 * half)
  {
    var m := 2 * half;
    var x := n + half;
    var q := x / m;
    assert x == q * m + x % m;
    MultipleBounds(q, m);
  }

  /** The first column of the row with that label, as ResultSet.getObject(label) finds it. */
  function ColumnIndex(row: ResultRow, columnName: string): (r: Option<nat>)
    ensures r.Some? ==> (r.value < |row| && row[r.value].0 == columnName
      && forall j :: 0 <= j < r.value ==> row[j].0 != columnName)
    ensures r.None? ==> forall j :: 0 <= j < |row| ==> row[j].0 != columnName
  {
    if row == [] then None
    else if row[0].0 == columnName then Some(0)
    else
      var r := ColumnIndex(row[1..], columnName);
      if r.None? then None else Some(r.value + 1)
  }

  predicate IsBooleanField(f: Field)
  {
    f.fieldType == Prim(Boolean) || f.fieldType == Boxed(Boolean)
  }

  /**
   * The Long narrowing of setFieldFromResultSet: a Long read into a field that cannot hold a
   * Long becomes a Byte, Short or Integer when the field can hold one of those, in that order.
   */
  function NarrowLong(h: Hierarchy, f: Field, v: Value): Value
  {
    if v.VLong? && !IsAssignableFrom(h, f.fieldType, Boxed(Long)) then
      if IsAssignableFrom(h, f.fieldType, Boxed(Byte)) then VByte(Narrow(v.i, ByteHalf))
      else if IsAssignableFrom(h, f.fieldType, Boxed(Short)) then VShort(Narrow(v.i, ShortHalf))
      else if IsAssignableFrom(h, f.fieldType, Boxed(Int)) then VInt(Narrow(v.i, IntHalf))
      else v
    else v
  }

  /**
   * The value setFieldFromResultSet stores into field f from the row's column. A missing
   * column is a driver error, rethrown as a RuntimeException. Numbers read into a boolean
   * field become true unless they are the shared Integer 0 instance (the source compares
   * references), and null read into a boolean field is dereferenced. A null value in a
   * non-primitive, non-@Nullable field reads the field's @Column; Field.set refuses a private
   * field and null for a primitive field.
   */
  function ColumnValue(h: Hierarchy, f: Field, row: ResultRow, columnName: string): (r: Result<Value>)
  {
    var idx := ColumnIndex(row, columnName);
    if idx.None? then Err(Runtime("SQLException: no column " + columnName))
    else StoredValue(h, f, row[idx.value].1)
  }

  /** Widening primitive conversion (section 5.1.2 of the Java Language Specification), or identity. */
  predicate Widens(from: Primitive, to: Primitive)
  {
    from == to
    || (from == Byte && to in {Short, Int, Long, Float, Double})
    || ((from == Short || from == Char) && to in {Int, Long, Float, Double})
    || (from == Int && to in {Long, Float, Double})
    || (from == Long && to in {Float, Double})
    || (from == Float && to == Double)
  }

  /**
   * Whether Field.set accepts the non-null value v for a field of type k: a reference field
   * takes an instance of its type, a primitive field a wrapper whose primitive widens to it.
   */
  predicate SetAccepts(h: Hierarchy, k: TypeKind, v: Value)
    requires !v.Null? && IsObject(v)
  {
    match k
    case Prim(p) => ClassOf(v).Boxed? && Widens(ClassOf(v).p, p)
    case _ => IsAssignableFrom(h, k, ClassOf(v))
  }

  /**
   * The value a primitive field holds after Field.set widened v into it, as Field.get boxes
   * it again. Integral values are widened exactly; a value widened into a float or double
   * field keeps its box, as floating point is not modelled.
   */
  function Widened(p: Primitive, v: Value): Value
  {
    match p
    case Short => if v.VByte? then VShort(v.i) else v
    case Int => if v.VByte? || v.VShort? then VInt(v.i) else if v.VChar? then VInt(v.c as int) else v
    case Long =>
      if v.VByte? || v.VShort? || v.VInt? then VLong(v.i) else if v.VChar? then VLong(v.c as int) else v
    case _ => v
  }

  /** The conversions and Field.set checks applied to a value the driver returned. */
  function StoredValue(h: Hierarchy, f: Field, v0: Value): (r: Result<Value>)
    requires IsObject(v0)
  {
    var v1 :=
      // the driver's value is an object, so its class is never primitive and the
      // primitive-to-wrapper branch of the source cannot be taken
      if !v0.Null? && IsWrapperClass(ClassOf(v0)) && IsPrimitiveClass(f.fieldType) then WrapperToPrimitive(v0)
      else Ok(v0);
    if v1.Err? then Err(Runtime("conversion failed"))
    else
      var v2 := NarrowLong(h, f, v1.value);
      if IsBooleanField(f) && v2.Null? then Err(NullPointer)
      else
        var v3 := if IsBooleanField(f) && IsNumber(ClassOf(v2)) then VBool(v2 != VInt(0)) else v2;
        if v3.Null? && !IsPrimitiveClass(f.fieldType) && !f.nullable && f.column.None? then Err(NullPointer)
        else if !f.isPublic then Err(Runtime("IllegalAccessException"))
        else if v3.Null? && IsPrimitiveClass(f.fieldType) then Err(IllegalArgument("null for primitive field"))
        else if !v3.Null? && !SetAccepts(h, f.fieldType, v3) then 
          Err(IllegalArgument("Can not set " + ClassNameOf(f.fieldType) + " field " + f.declaringClass + "." + f.name
            + " to " + ClassNameOf(ClassOf(v3))))
        else Ok(if f.fieldType.Prim? then Widened(f.fieldType.p, v3) else v3)
  }

  /** A column the row does not have makes the read fail. */
  lemma MissingColumnFails(h: Hierarchy, f: Field, row: ResultRow, columnName: string)
    requires forall i :: 0 <= i < |row| ==> row[i].0 != columnName
    ensures ColumnValue(h, f, row, columnName).Err?
  {
  }

  /**
   * A BIGINT read into an Integer field is narrowed to 32 bits: values that fit arrive
   * unchanged, others are brought into the int range.
   */
  lemma LongIntoIntegerField(h: Hierarchy, f: Field, n: int)
    requires f.fieldType == Boxed(Int) && f.isPublic
    requires WrappersUnrelated(h)
    ensures var r := StoredValue(h, f, VLong(n));
      r.Ok? && r.value.VInt? && -IntHalf <= r.value.i < IntHalf
      && (-IntHalf <= n < IntHalf ==> r.value == VInt(n))
  {
    LongNarrowedToInteger(h, f, n);
    if -IntHalf <= n < IntHalf {
      NarrowKeepsFittingValues(n, IntHalf);
    }
  }

  lemma LongNarrowedToInteger(h: Hierarchy, f: Field, n: int)
    requires f.fieldType == Boxed(Int) && f.isPublic
    requires WrappersUnrelated(h)
    ensures StoredValue(h, f, VLong(n)) == Ok(VInt(Narrow(n, IntHalf)))
  {
    NarrowedToInteger(h, f, n);
    IntegerStored(h, f, VLong(n), Narrow(n, IntHalf));
  }

  /** A value that narrows to an Integer is stored as that Integer in an Integer field. */
  lemma IntegerStored(h: Hierarchy, f: Field, v: Value, m: int)
    requires f.fieldType == Boxed(Int) && f.isPublic
    requires IsObject(v) && NarrowLong(h, f, v) == VInt(m)
    ensures StoredValue(h, f, v) == Ok(VInt(m))
  {
    NarrowedStored(h, f, v);
  }

  /**
   * In a public field that is neither primitive nor boolean, a non-null value is stored as
   * narrowed when the field's type accepts it; otherwise Field.set throws.
   */
  lemma NarrowedStored(h: Hierarchy, f: Field, v: Value)
    requires !f.fieldType.Prim? && f.fieldType != Boxed(Boolean) && f.isPublic
    requires IsObject(v) && !NarrowLong(h, f, v).Null?
    ensures IsAssignableFrom(h, f.fieldType, ClassOf(NarrowLong(h, f, v))) ==> StoredValue(h, f, v) == Ok(NarrowLong(h, f, v))
    ensures !IsAssignableFrom(h, f.fieldType, ClassOf(NarrowLong(h, f, v))) ==>
      StoredValue(h, f, v).Err? && StoredValue(h, f, v).error.IllegalArgument?
  {
  }

  /**
   * A BIGINT read into a primitive int field is refused by Field.set: the narrowing only
   * looks at boxed field types, and a long does not widen to an int.
   */
  lemma LongIntoIntFieldRefused(h: Hierarchy, f: Field, n: int)
    requires f.fieldType == Prim(Int) && f.isPublic
    ensures StoredValue(h, f, VLong(n)).Err? && StoredValue(h, f, VLong(n)).error.IllegalArgument?
  {
    assert NarrowLong(h, f, VLong(n)) == VLong(n);
    assert !IsBooleanField(f);
  }

  /** An INT read into a primitive long field is widened to a long of the same value. */
  lemma IntegerWidenedIntoLongField(h: Hierarchy, f: Field, n: int)
    requires f.fieldType == Prim(Long) && f.isPublic
    ensures StoredValue(h, f, VInt(n)) == Ok(VLong(n))
  {
    WrapperClasses(Boxed(Int));
    assert NarrowLong(h, f, VInt(n)) == VInt(n);
    assert !IsBooleanField(f);
    assert SetAccepts(h, Prim(Long), VInt(n));
  }

  lemma NarrowedToInteger(h: Hierarchy, f: Field, n: int)
    requires f.fieldType == Boxed(Int) && WrappersUnrelated(h)
    ensures NarrowLong(h, f, VLong(n)) == VInt(Narrow(n, IntHalf))
  {
    assert !IsAssignableFrom(h, Boxed(Int), Boxed(Long));
    assert !IsAssignableFrom(h, Boxed(Int), Boxed(Byte)) && !IsAssignableFrom(h, Boxed(Int), Boxed(Short));
  }

  /**
   * A boolean field read from a TINYINT(1) column: an Integer 0 gives false and any other
   * Integer gives true.
   */
  lemma IntegerIntoBooleanField(h: Hierarchy, f: Field, n: int)
    requires f.fieldType == Boxed(Boolean) && f.isPublic
    ensures StoredValue(h, f, VInt(n)) == Ok(VBool(n != 0))
  {
    assert NarrowLong(h, f, VInt(n)) == VInt(n);
    IsNumberExactly(Boxed(Int));
  }

  /** A Long read into a boolean field is always true, even a Long 0 (a reference comparison). */
  lemma LongIntoBooleanField(h: Hierarchy, f: Field, n: int)
    requires f.fieldType == Boxed(Boolean) && f.isPublic
    requires WrappersUnrelated(h)
    ensures StoredValue(h, f, VLong(n)) == Ok(VBool(true))
  {
    LongKeptInBoolean(h, f, n);
    LongStoredAsTrue(h, f, n);
  }

  /** A Long the narrowing leaves alone, read into a boolean field, is true. */
  lemma LongStoredAsTrue(h: Hierarchy, f: Field, n: int)
    requires f.fieldType == Boxed(Boolean) && f.isPublic
    requires NarrowLong(h, f, VLong(n)) == VLong(n)
    ensures StoredValue(h, f, VLong(n)) == Ok(VBool(true))
  {
    IsNumberExactly(Boxed(Long));
    NumberIntoBooleanField(h, f, VLong(n));
  }

  /** A number the narrowing leaves alone, read into a boolean field: true unless it is the Integer 0. */
  lemma NumberIntoBooleanField(h: Hierarchy, f: Field, v: Value)
    requires f.fieldType == Boxed(Boolean) && f.isPublic
    requires IsObject(v) && !v.Null? && NarrowLong(h, f, v) == v && IsNumber(ClassOf(v))
    ensures StoredValue(h, f, v) == Ok(VBool(v != VInt(0)))
  {
    assert !IsPrimitiveClass(f.fieldType);
    assert IsBooleanField(f);
  }

  lemma LongKeptInBoolean(h: Hierarchy, f: Field, n: int)
    requires f.fieldType == Boxed(Boolean) && WrappersUnrelated(h)
    ensures NarrowLong(h, f, VLong(n)) == VLong(n)
  {
    assert !IsAssignableFrom(h, Boxed(Boolean), Boxed(Long)) && !IsAssignableFrom(h, Boxed(Boolean), Boxed(Int));
    assert !IsAssignableFrom(h, Boxed(Boolean), Boxed(Byte)) && !IsAssignableFrom(h, Boxed(Boolean), Boxed(Short));
  }

  /** A string read into a public String field arrives unchanged. */
  lemma StringArrivesUnchanged(h: Hierarchy, f: Field, row: ResultRow, columnName: string, s: string)
    requires f.fieldType == Str && f.isPublic
    requires ColumnIndex(row, columnName).Some? && row[ColumnIndex(row, columnName).value].1 == VStr(s)
    ensures ColumnValue(h, f, row, columnName) == Ok(VStr(s))
  {
    WrapperClasses(Str);
  }

  /** setFieldFromResultSet: the field takes the value read, and on failure the instance is untouched. */
  method SetFieldFromResultSet(h: Hierarchy, instance: RowInstance, row: ResultRow, f: Field, columnName: string)
    returns (r: Result<RowInstance>)
    modifies instance
    ensures var v := ColumnValue(h, f, row, columnName);
      (v.Ok? ==> r == Ok(instance) && instance.values == old(instance.values)[f := v.value])
      && (v.Err? ==> r == Err(v.error) && instance.values == old(instance.values))
  {
    var v := ColumnValue(h, f, row, columnName);
    if v.Err? {
      return Err(v.error);
    }
    instance.values := instance.values[f := v.value];
    return Ok(instance);
  }

  /** Whether setFieldsFromResultSet touches field f for this row. */
  predicate ReadsField(f: Field, row: ResultRow)
  {
    f.column.Some? && ColumnIndex(row, ColumnName(f)).Some?
  }

  /**
   * setFieldsFromResultSet as a fold over the row class's fields: fields without @Column
   * and columns the row lacks are skipped; the first failure is rethrown as a
   * RuntimeException naming the field (the value in its message is always "null").
   */
  function SetFields(h: Hierarchy, rowClass: ClassName, values: map<Field, Value>, fields: seq<Field>, row: ResultRow): Result<map<Field, Value>>
    decreases |fields|
  {
    if fields == [] then Ok(values)
    else
      var f := fields[0];
      if !ReadsField(f, row) then SetFields(h, rowClass, values, fields[1..], row)
      else
        var v := ColumnValue(h, f, row, ColumnName(f));
        if v.Err? then Err(Runtime("Couldn't set value \"null\" for field: " + rowClass + "." + f.name + ": "))
        else SetFields(h, rowClass, values[f := v.value], fields[1..], row)
  }

  /**
   * After a successful setFieldsFromResultSet, every field read holds the value converted
   * from its column, and every other field keeps its value.
   */
  lemma {:induction false} SetFieldsEffect(h: Hierarchy, rowClass: ClassName, values: map<Field, Value>, fields: seq<Field>, row: ResultRow)
    requires SetFields(h, rowClass, values, fields, row).Ok?
    ensures var res := SetFields(h, rowClass, values, fields, row).value;
      (forall g :: g in fields && ReadsField(g, row) ==> g in res && ColumnValue(h, g, row, ColumnName(g)) == Ok(res[g]))
      && (forall g :: g in values && !(g in fields && ReadsField(g, row)) ==> g in res && res[g] == values[g])
    decreases |fields|
  {
    if fields != [] {
      var f := fields[0];
      var rest := fields[1..];
      assert forall g :: g in fields <==> g == f || g in rest;
      if !ReadsField(f, row) {
        SetFieldsEffect(h, rowClass, values, rest, row);
      } else {
        var v := ColumnValue(h, f, row, ColumnName(f)).value;
        SetFieldsEffect(h, rowClass, values[f := v], rest, row);
        SetFieldsKeepsRead(h, rowClass, values[f := v], rest, row, f);
      }
    }
  }

  /** A field already set keeps its value when later fields are read. */
  lemma {:induction false} SetFieldsKeepsRead(h: Hierarchy, rowClass: ClassName, values: map<Field, Value>, fields: seq<Field>, row: ResultRow, f: Field)
    requires SetFields(h, rowClass, values, fields, row).Ok?
    requires f in values
    ensures var res := SetFields(h, rowClass, values, fields, row).value;
      f in res && (res[f] == values[f] || (f in fields && ReadsField(f, row) && ColumnValue(h, f, row, ColumnName(f)) == Ok(res[f])))
    decreases |fields|
  {
    if fields != [] {
      var g := fields[0];
      var rest := fields[1..];
      assert forall x :: x in rest ==> x in fields;
      if !ReadsField(g, row) {
        SetFieldsKeepsRead(h, rowClass, values, rest, row, f);
      } else {
        var v := ColumnValue(h, g, row, ColumnName(g)).value;
        SetFieldsKeepsRead(h, rowClass, values[g := v], rest, row, f);
      }
    }
  }

  /** The loop of setFieldsFromResultSet over the fields of the row class. */
  method SetFieldsFromResultSet(h: Hierarchy, rowClass: ClassName, instance: RowInstance, fields: seq<Field>, row: ResultRow)
    returns (r: Result<RowInstance>)
    modifies instance
    ensures var expected := SetFields(h, rowClass, old(instance.values), fields, row);
      (expected.Ok? ==> r == Ok(instance) && instance.values == expected.value)
      && (expected.Err? ==> r == Err(expected.error))
  {
    var i := 0;
    while i < |fields|
      invariant 0 <= i <= |fields|
      invariant SetFields(h, rowClass, old(instance.values), fields, row) == SetFields(h, rowClass, instance.values, fields[i..], row)
    {
      var f := fields[i];
      assert fields[i..][1..] == fields[i + 1..];
      if f.column.None? {
        i := i + 1;
        continue;
      }
      var name := ColumnName(f);
      var present := HasColumn(row, name);
      if !present {
        i := i + 1;
        continue;
      }
      var set_ := SetFieldFromResultSet(h, instance, row, f, name);
      if set_.Err? {
        return Err(Runtime("Couldn't set value \"null\" for field: " + rowClass + "." + f.name + ": "));
      }
      i := i + 1;
    }
    return Ok(instance);
  }

  /** deserializeResultSet as a function: one freshly constructed row per result row, in order. */
  function Deserialize(h: Hierarchy, rowClass: ClassName, fields: seq<Field>, rows: seq<ResultRow>): (r: Result<seq<map<Field, Value>>>)
    ensures r.Ok? ==> |r.value| == |rows|
    decreases |rows|
  {
    if rows == [] then Ok([])
    else
      var first := SetFields(h, rowClass, map[], fields, rows[0]);
      if first.Err? then Err(first.error)
      else
        var rest := Deserialize(h, rowClass, fields, rows[1..]);
        if rest.Err? then rest else Ok([first.value] + rest.value)
  }

  /** Each deserialized row is the row read from the result row at the same position. */
  lemma {:induction false} DeserializeRowwise(h: Hierarchy, rowClass: ClassName, fields: seq<Field>, rows: seq<ResultRow>)
    ensures Deserialize(h, rowClass, fields, rows).Ok? <==>
      forall i :: 0 <= i < |rows| ==> SetFields(h, rowClass, map[], fields, rows[i]).Ok?
    ensures Deserialize(h, rowClass, fields, rows).Ok? ==>
      forall i :: 0 <= i < |rows| ==> Deserialize(h, rowClass, fields, rows).value[i] == SetFields(h, rowClass, map[], fields, rows[i]).value
    decreases |rows|
  {
    if rows != [] {
      DeserializeRowwise(h, rowClass, fields, rows[1..]);
      forall i | 1 <= i < |rows| ensures rows[i] == rows[1..][i - 1] { }
    }
  }

  /** The first row that cannot be read decides the error of the whole deserialisation. */
  lemma {:induction false} DeserializeFirstError(h: Hierarchy, rowClass: ClassName, fields: seq<Field>, rows: seq<ResultRow>, k: nat)
    requires k < |rows|
    requires forall i :: 0 <= i < k ==> SetFields(h, rowClass, map[], fields, rows[i]).Ok?
    requires SetFields(h, rowClass, map[], fields, rows[k]).Err?
    ensures Deserialize(h, rowClass, fields, rows) == Err(SetFields(h, rowClass, map[], fields, rows[k]).error)
    decreases k
  {
    if k > 0 {
      forall i | 0 <= i < k - 1 ensures SetFields(h, rowClass, map[], fields, rows[1..][i]).Ok? {
        assert rows[1..][i] == rows[i + 1];
      }
      assert rows[1..][k - 1] == rows[k];
      DeserializeFirstError(h, rowClass, fields, rows[1..], k - 1);
    }
  }

  /** deserializeResultSet: a new row object per result row, filled by setFieldsFromResultSet. */
  method DeserializeResultSet(h: Hierarchy, rowClass: ClassName, fields: seq<Field>, rows: seq<ResultRow>)
    returns (r: Result<seq<RowInstance>>)
    ensures var expected := Deserialize(h, rowClass, fields, rows);
      (expected.Ok? <==> r.Ok?)
      && (r.Ok? ==> |r.value| == |rows| && forall i :: 0 <= i < |rows| ==> r.value[i].values == expected.value[i])
      && (r.Ok? ==> forall i :: 0 <= i < |rows| ==> fresh(r.value[i]))
      && (r.Ok? ==> forall i, j :: 0 <= i < j < |rows| ==> r.value[i] != r.value[j])
      && (r.Err? ==> r.error == expected.error)
  {
    var result: seq<RowInstance> := [];
    var k := 0;
    while k < |rows|
      invariant 0 <= k <= |rows|
      invariant |result| == k
      invariant forall i :: 0 <= i < k ==> fresh(result[i])
      invariant forall i :: 0 <= i < k ==> SetFields(h, rowClass, map[], fields, rows[i]) == Ok(result[i].values)
      invariant forall i, j :: 0 <= i < j < k ==> result[i] != result[j]
    {
      var instance := new RowInstance();
      var filled := SetFieldsFromResultSet(h, rowClass, instance, fields, rows[k]);
      if filled.Err? {
        DeserializeFirstError(h, rowClass, fields, rows, k);
        return Err(filled.error);
      }
      result := result + [instance];
      k := k + 1;
    }
    DeserializeRowwise(h, rowClass, fields, rows);
    return Ok(result);
  }

  /**
   * The outcome of deserializeResultSet over rows: one row object per result row, in order,
   * holding the values Deserialize reads from it, or the error of the first unreadable row.
   */
  predicate RowsRead(r: Result<seq<RowInstance>>, h: Hierarchy, rowClass: ClassName, fields: seq<Field>, rows: seq<ResultRow>)
    reads if r.Ok? then r.value else []
  {
    var d := Deserialize(h, rowClass, fields, rows);
    (d.Err? ==> r == Err(d.error))
    && (d.Ok? ==> r.Ok? && |r.value| == |rows| && forall i :: 0 <= i < |rows| ==> r.value[i].values == d.value[i])
  }

  /**
   * AbstractTable.get: run the statement (with the reconnect retry) and deserialize every
   * row; a failed execution is rethrown.
   */
  method Get(table: Table, fields: seq<Field>, first: ExecOutcome, retry: ExecOutcome)
    returns (r: Result<seq<RowInstance>>)
    modifies table
    ensures var run := QueryRun(old(table.reconnected), first, retry);
      table.reconnected == run.1
      && (run.0.Err? ==> r == Err(run.0.error))
      && (run.0.Ok? ==> RowsRead(r, table.registry.hierarchy, table.rowClass, fields, run.0.value))
  {
    var rows, _ := table.ExecuteQuery(first, retry);
    if rows.Err? {
      return Err(rows.error);
    }
    r := DeserializeResultSet(table.registry.hierarchy, table.rowClass, fields, rows.value);
  }
}
