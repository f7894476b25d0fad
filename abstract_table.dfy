/**
 * AbstractTable: a named table of a database. The prefixed table name, the {TABLE}
 * placeholder, the rendering of a statement with its bindings for error messages, the
 * column test on a result row, and the reconnect-once retry of query and update execution.
 */
module AbstractTable {
  import opened Wrappers
  import opened JavaText
  import opened JavaTypes
  import opened Database
  import opened SqlConverters

  /** One row of a JDBC ResultSet: column labels with their (object) values, in column order. */
  type ResultRow = r: seq<(string, Value)> | forall i :: 0 <= i < |r| ==> IsObject(r[i].1) witness []

  /**
   * What the driver does with one execution attempt: a result, a
   * SQLNonTransientConnectionException (the connection is gone), or any other failure.
   */
  datatype ExecOutcome = Success(rows: seq<ResultRow>) | ConnectionFailure | OtherFailure

  const TablePlaceholder := "{TABLE}"

  /** The replaceAll of "{TABLE}" (matched literally) by the table name. */
  function SubstituteTable(sql: string, tableName: string): string
  {
    ReplaceAll(sql, TablePlaceholder, tableName)
  }

  /** A statement whose only "{TABLE}" is the one between before and after gets the table name in its place. */
  lemma SubstituteTablePlacesName(before: string, after: string, tableName: string)
    requires NoneBefore(before + TablePlaceholder + after, TablePlaceholder, |before|) && Absent(after, TablePlaceholder)
    ensures SubstituteTable(before + TablePlaceholder + after, tableName) == before + tableName + after
  {
    ReplaceAllSingle(before, TablePlaceholder, after, tableName);
  }

  /** How sqlToString prints one binding. */
  function BindingText(v: Value): string
  {
    if v.Null? then "NULL" else ToString(v)
  }

  /** The loop of sqlToString: each binding in turn replaces the first remaining '?'. */
  function FillBindings(sql: string, bindings: seq<Value>): string
    decreases |bindings|
  {
    if bindings == [] then sql
    else FillBindings(ReplaceFirst(sql, "?", BindingText(bindings[0])), bindings[1..])
  }

  /** sqlToString: the statement with its bindings written in, for log messages. */
  function SqlToString(sql: Option<string>, bindings: Option<seq<Value>>): Option<string>
  {
    if sql.None? || bindings.None? || |bindings.value| < 1 then sql
    else Some(FillBindings(sql.value, bindings.value))
  }

  /** "?" + pieces[0] + "?" + pieces[1] + ...: a statement's text after its first piece. */
  function Holes(pieces: seq<string>): string
  {
    if pieces == [] then "" else "?" + pieces[0] + Holes(pieces[1..])
  }

  /** The same text with each '?' replaced by the corresponding binding's text. */
  function Filled(pieces: seq<string>, bindings: seq<Value>): string
    requires |pieces| == |bindings|
  {
    if pieces == [] then "" else BindingText(bindings[0]) + pieces[0] + Filled(pieces[1..], bindings[1..])
  }

  predicate NoMark(s: string)
  {
    '?' !in s
  }

  predicate NoMarks(pieces: seq<string>, bindings: seq<Value>)
    requires |pieces| == |bindings|
  {
    forall i :: 0 <= i < |pieces| ==> NoMark(pieces[i]) && NoMark(BindingText(bindings[i]))
  }

  /**
   * When neither the statement's pieces nor the bindings' texts contain '?', the i-th
   * binding lands on the i-th placeholder.
   */
  lemma {:induction false} FillBindingsInOrder(done: string, pieces: seq<string>, bindings: seq<Value>)
    requires |pieces| == |bindings|
    requires NoMark(done) && NoMarks(pieces, bindings)
    ensures FillBindings(done + Holes(pieces), bindings) == done + Filled(pieces, bindings)
    decreases |pieces|
  {
    if pieces == [] {
      assert done + "" == done;
    } else {
      var t := BindingText(bindings[0]);
      var done' := done + t + pieces[0];
      FillFirstHole(done, pieces, bindings);
      FillBindingsInOrder(done', pieces[1..], bindings[1..]);
      assert Filled(pieces, bindings) == t + pieces[0] + Filled(pieces[1..], bindings[1..]);
      Regroup(done, t, pieces[0], Filled(pieces[1..], bindings[1..]));
    }
  }

  lemma Regroup(a: string, b: string, c: string, d: string)
    ensures a + b + c + d == a + (b + c + d)
  {
  }

  lemma Assoc(a: string, b: string, c: string)
    ensures a + (b + c) == a + b + c
  {
  }

  /** Filling the first hole moves the first binding and piece into the finished text. */
  lemma FillFirstHole(done: string, pieces: seq<string>, bindings: seq<Value>)
    requires |pieces| == |bindings| && pieces != []
    requires NoMark(done) && NoMarks(pieces, bindings)
    ensures var done' := done + BindingText(bindings[0]) + pieces[0];
      NoMark(done') && NoMarks(pieces[1..], bindings[1..])
      && FillBindings(done + Holes(pieces), bindings) == FillBindings(done' + Holes(pieces[1..]), bindings[1..])
  {
    var t := BindingText(bindings[0]);
    NoMarksTail(pieces, bindings);
    assert NoMark(t) && NoMark(pieces[0]);
    NoMarkJoin(done, t, pieces[0]);
    FirstHoleText(done, t, pieces);
  }

  /** The first '?' after a text without marks is the first hole. */
  lemma FirstHoleText(done: string, t: string, pieces: seq<string>)
    requires pieces != [] && NoMark(done)
    ensures ReplaceFirst(done + Holes(pieces), "?", t) == done + t + pieces[0] + Holes(pieces[1..])
  {
    var rest := pieces[0] + Holes(pieces[1..]);
    assert done + Holes(pieces) == done + "?" + rest;
    NoneBeforeWithoutHead(done, "?", rest);
    ReplaceFirstAt(done, "?", rest, t);
    Assoc(done + t, pieces[0], Holes(pieces[1..]));
  }

  lemma NoMarksTail(pieces: seq<string>, bindings: seq<Value>)
    requires |pieces| == |bindings| && pieces != [] && NoMarks(pieces, bindings)
    ensures NoMarks(pieces[1..], bindings[1..])
  {
    forall i | 0 <= i < |pieces| - 1 ensures NoMark(pieces[1..][i]) && NoMark(BindingText(bindings[1..][i])) {
      assert pieces[1..][i] == pieces[i + 1] && bindings[1..][i] == bindings[i + 1];
    }
  }

  lemma NoMarkJoin(a: string, b: string, c: string)
    requires NoMark(a) && NoMark(b) && NoMark(c)
    ensures NoMark(a + b + c)
  {
  }

  /** Without bindings (a null array or an empty one) the statement comes back unchanged. */
  lemma SqlToStringWithoutBindings(sql: Option<string>, bindings: Option<seq<Value>>)
    requires bindings.None? || bindings.value == []
    ensures SqlToString(sql, bindings) == sql
  {
  }

  /** sqlToString writes the i-th binding at the i-th '?' when no other '?' is around. */
  lemma SqlToStringFillsInOrder(first: string, pieces: seq<string>, bindings: seq<Value>)
    requires |pieces| == |bindings| && bindings != []
    requires NoMark(first) && NoMarks(pieces, bindings)
    ensures SqlToString(Some(first + Holes(pieces)), Some(bindings)) == Some(first + Filled(pieces, bindings))
  {
    FillBindingsInOrder(first, pieces, bindings);
  }

  /** A binding whose text contains '?' has that mark filled by the next binding. */
  lemma MarkInBindingIsRefilled()
    ensures SqlToString(Some("? ?"), Some([VStr("a?"), VStr("b")])) == Some("ab ?")
  {
    var s1 := ReplaceFirst("? ?", "?", "a?");
    ReplaceFirstAt("", "?", " ?", "a?");
    assert "" + "?" + " ?" == "? ?";
    assert s1 == "a? ?";
    NoneBeforeWithoutHead("a", "?", " ?");
    ReplaceFirstAt("a", "?", " ?", "b");
    assert "a" + "?" + " ?" == "a? ?";
    assert "a" + "b" + " ?" == "ab ?";
  }

  /** hasColumn: whether some column of the row has exactly that name. */
  method HasColumn(row: ResultRow, columnName: string) returns (b: bool)
    ensures b <==> exists x :: 0 <= x < |row| && row[x].0 == columnName
  {
    var x := 0;
    while x < |row|
      invariant 0 <= x <= |row|
      invariant forall y :: 0 <= y < x ==> row[y].0 != columnName
    {
      if columnName == row[x].0 {
        return true;
      }
      x := x + 1;
    }
    return false;
  }

  /**
   * executeQuery after the driver has answered: a result clears the reconnect flag; the
   * first connection failure while the flag is clear reconnects, sets the flag and runs
   * the statement again; any other failure is rethrown and leaves the flag as it was.
   * Yields the result, the new flag and the number of attempts.
   */
  function QueryRun(reconnected: bool, first: ExecOutcome, retry: ExecOutcome): (Result<seq<ResultRow>>, bool, nat)
    decreases if reconnected then 0 else 1
  {
    match first
    case Success(rows) => (Ok(rows), false, 1)
    case ConnectionFailure =>
      if !reconnected then
        var (r, flag, n) := QueryRun(true, retry, retry);
        (r, flag, n + 1)
      else (Err(Runtime("SQLNonTransientConnectionException")), reconnected, 1)
    case OtherFailure => (Err(Runtime("SQLException")), reconnected, 1)
  }

  /**
   * executeUpdate after the driver has answered. As in executeQuery a connection failure
   * with the flag clear leads to one retry, but the original failure is rethrown
   * afterwards whatever the retry did; the flag is what the retry left.
   */
  function UpdateRun(reconnected: bool, first: ExecOutcome, retry: ExecOutcome): (Result<()>, bool, nat)
    decreases if reconnected then 0 else 1
  {
    match first
    case Success(_) => (Ok(()), false, 1)
    case ConnectionFailure =>
      if !reconnected then
        var (_, flag, n) := UpdateRun(true, retry, retry);
        (Err(Runtime("SQLNonTransientConnectionException")), flag, n + 1)
      else (Err(Runtime("SQLNonTransientConnectionException")), reconnected, 1)
    case OtherFailure => (Err(Runtime("SQLException")), reconnected, 1)
  }

  /** A query is attempted at most twice, and twice exactly when it lost the connection with the flag clear. */
  lemma QueryAtMostOneRetry(reconnected: bool, first: ExecOutcome, retry: ExecOutcome)
    ensures 1 <= QueryRun(reconnected, first, retry).2 <= 2
    ensures QueryRun(reconnected, first, retry).2 == 2 <==> first.ConnectionFailure? && !reconnected
    ensures UpdateRun(reconnected, first, retry).2 == QueryRun(reconnected, first, retry).2
  {
  }

  /** Rows returned by executeQuery are the rows of the first or of the retried attempt. */
  lemma QueryRowsComeFromAnAttempt(reconnected: bool, first: ExecOutcome, retry: ExecOutcome)
    ensures QueryRun(reconnected, first, retry).0.Ok? ==>
      (first.Success? && QueryRun(reconnected, first, retry).0.value == first.rows)
      || (retry.Success? && QueryRun(reconnected, first, retry).0.value == retry.rows)
  {
    if first.ConnectionFailure? && !reconnected {
      assert QueryRun(reconnected, first, retry).0 == QueryRun(true, retry, retry).0;
    }
  }

  /** A query that lost its connection once succeeds when the retry does, with the flag cleared. */
  lemma QueryRecoversAfterReconnect(rows: seq<ResultRow>)
    ensures QueryRun(false, ConnectionFailure, Success(rows)) == (Ok(rows), false, 2)
  {
  }

  /**
   * A failed retry leaves the flag set, and then the next lost connection is not retried
   * at all until some statement succeeds.
   */
  lemma FailedRetryDisablesReconnect(first: ExecOutcome, retry: ExecOutcome, next: ExecOutcome)
    requires first.ConnectionFailure? && retry.ConnectionFailure?
    ensures QueryRun(false, first, retry).1
    ensures QueryRun(QueryRun(false, first, retry).1, ConnectionFailure, next).0.Err?
    ensures QueryRun(QueryRun(false, first, retry).1, ConnectionFailure, next).2 == 1
  {
  }

  /** executeUpdate throws after a reconnect even when the retried update went through. */
  lemma UpdateFailsEvenAfterSuccessfulRetry(rows: seq<ResultRow>)
    ensures UpdateRun(false, ConnectionFailure, Success(rows)) == (Err(Runtime("SQLNonTransientConnectionException")), false, 2)
  {
  }

  /** Both operations succeed exactly when the last attempt succeeds, and then the flag is clear. */
  lemma SuccessIffLastAttemptSucceeds(reconnected: bool, first: ExecOutcome, retry: ExecOutcome)
    ensures var last := if first.ConnectionFailure? && !reconnected then retry else first;
      (QueryRun(reconnected, first, retry).0.Ok? <==> last.Success?)
      && (QueryRun(reconnected, first, retry).0.Ok? ==> !QueryRun(reconnected, first, retry).1)
      && (UpdateRun(reconnected, first, retry).0.Ok? <==> first.Success?)
  {
  }

  /**
   * A table: its unprefixed name, database, row class and storage engine, the shared
   * converter registry and the per-table reconnect flag.
   */
  class Table {
    const name: string
    const db: SqlDatabase
    const registry: ConverterRegistry
    const rowClass: ClassName
    const engine: string
    var reconnected: bool

    constructor (name: string, db: SqlDatabase, registry: ConverterRegistry, rowClass: ClassName, engine: string)
      ensures this.name == name && this.db == db && this.registry == registry
      ensures this.rowClass == rowClass && this.engine == engine && !reconnected
    {
      this.name := name;
      this.db := db;
      this.registry := registry;
      this.rowClass := rowClass;
      this.engine := engine;
      reconnected := false;
    }

    /** getName: the connection's table prefix followed by the table's own name. */
    function GetName(): (r: string)
      ensures |r| == |db.tablePrefix| + |name| && r[..|db.tablePrefix|] == db.tablePrefix && r[|db.tablePrefix|..] == name
    {
      db.tablePrefix + name
    }

    /** toSqlValue(o, strict) against the current registry and this table's database class. */
    function ToSqlValue(o: Value, strict: bool): Result<Option<string>>
      requires IsObject(o)
      reads registry
    {
      SqlConverters.ToSqlValue(registry.hierarchy, registry.providers, registry.convert, db.dialect.className, o, strict)
    }

    /** executeQuery: run a statement, retrying once after a lost connection. */
    method ExecuteQuery(first: ExecOutcome, retry: ExecOutcome) returns (r: Result<seq<ResultRow>>, attempts: nat)
      modifies this
      ensures (r, reconnected, attempts) == QueryRun(old(reconnected), first, retry)
      decreases if reconnected then 0 else 1
    {
      match first
      case Success(rows) =>
        reconnected := false;
        return Ok(rows), 1;
      case ConnectionFailure =>
        if !reconnected {
          reconnected := true;
          r, attempts := ExecuteQuery(retry, retry);
          attempts := attempts + 1;
          return;
        }
        return Err(Runtime("SQLNonTransientConnectionException")), 1;
      case OtherFailure =>
        return Err(Runtime("SQLException")), 1;
    }

    /** executeUpdate: run an update, retrying once after a lost connection. */
    method ExecuteUpdate(first: ExecOutcome, retry: ExecOutcome) returns (r: Result<()>, attempts: nat)
      modifies this
      ensures (r, reconnected, attempts) == UpdateRun(old(reconnected), first, retry)
      decreases if reconnected then 0 else 1
    {
      match first
      case Success(_) =>
        reconnected := false;
        return Ok(()), 1;
      case ConnectionFailure =>
        if !reconnected {
          reconnected := true;
          var _, n := ExecuteUpdate(retry, retry);
          return Err(Runtime("SQLNonTransientConnectionException")), n + 1;
        }
        return Err(Runtime("SQLNonTransientConnectionException")), 1;
      case OtherFailure =>
        return Err(Runtime("SQLException")), 1;
    }
  }
}
