/**
 * SqlDatabase and its two dialects: the identifier quote character (the "backtick"),
 * whether CREATE TABLE may name a storage engine, the table prefix of the connection
 * info, string literal quoting, and the translator state kept between fragments.
 */
module Database {
  import opened Wrappers
  import opened JavaTypes

  const DatabaseClass: ClassName := "de.static_interface.sinksql.Database"
  const SqlDatabaseClass: ClassName := "de.static_interface.sinksql.SqlDatabase"

  /** The per-subclass constants of a SqlDatabase. */
  datatype Dialect = Dialect(className: ClassName, backtick: char, supportsEngines: bool)

  /** MySqlDatabase quotes identifiers with '`' and supports ENGINE=. */
  const MySql := Dialect("de.static_interface.sinksql.database.impl.database.MySqlDatabase", '`', true)

  /** H2Database passes the NUL character as its backtick and has no engines. */
  const H2 := Dialect("de.static_interface.sinksql.database.impl.database.H2Database", '\0', false)

  /** The characters stringify escapes with a backslash. */
  predicate NeedsEscape(c: char)
  {
    c == '\'' || c == '"' || c == '\\'
  }

  /** The regular-expression replacement in stringify: a backslash before each ', " and \. */
  function Escape(s: string): (r: string)
    ensures |r| >= |s|
  {
    if s == [] then []
    else (if NeedsEscape(s[0]) then ['\\', s[0]] else [s[0]]) + Escape(s[1..])
  }

  /** stringify: escape, then wrap in double quotes; null stays null. */
  function Stringify(s: Option<string>): (r: Option<string>)
    ensures s.None? <==> r.None?
  {
    if s.None? then None else Some("\"" + Escape(s.value) + "\"")
  }

  /**
   * How a SQL parser reads the body of a double-quoted literal: a backslash takes the
   * next character literally, and a bare quote would end the literal early (rejected).
   */
  function Unescape(t: string): Option<string>
  {
    if t == [] then Some([])
    else if t[0] == '\\' then
      if |t| < 2 then None
      else
        var rest := Unescape(t[2..]);
        if rest.None? then None else Some([t[1]] + rest.value)
    else if t[0] == '"' || t[0] == '\'' then None
    else
      var rest := Unescape(t[1..]);
      if rest.None? then None else Some([t[0]] + rest.value)
  }

  /** Reading a stringified literal back: strip the quotes and undo the escapes. */
  function Unstringify(t: string): Option<string>
  {
    if |t| >= 2 && t[0] == '"' && t[|t| - 1] == '"' then Unescape(t[1..|t| - 1]) else None
  }

  lemma {:induction false} EscapeRoundTrip(s: string)
    ensures Unescape(Escape(s)) == Some(s)
  {
    if s != [] {
      EscapeRoundTrip(s[1..]);
      var e := Escape(s);
      if NeedsEscape(s[0]) {
        assert e[0] == '\\' && e[1] == s[0] && e[2..] == Escape(s[1..]);
      } else {
        assert e[0] == s[0] && e[1..] == Escape(s[1..]);
      }
      assert [s[0]] + s[1..] == s;
    }
  }

  /**
   * A stringified value is a single SQL string literal whose content is exactly the
   * original text: no quote inside it can terminate it early.
   */
  lemma StringifyRoundTrip(s: string)
    ensures Stringify(Some(s)).Some?
    ensures Unstringify(Stringify(Some(s)).value) == Some(s)
  {
    var t := Stringify(Some(s)).value;
    assert t[1..|t| - 1] == Escape(s);
    EscapeRoundTrip(s);
  }

  /** Different strings give different literals. */
  lemma StringifyInjective(a: string, b: string)
    requires Stringify(Some(a)) == Stringify(Some(b))
    ensures a == b
  {
    StringifyRoundTrip(a);
    StringifyRoundTrip(b);
  }

  /** The query type codes of SqlDatabase: none yet, SELECT, UPDATE, DELETE. */
  const NoQuery := 0
  const SelectQuery := 1
  const UpdateQuery := 2
  const DeleteQuery := 3

  /** A SqlDatabase: its dialect, its connection info's table prefix and the translator state. */
  class SqlDatabase {
    const dialect: Dialect
    const tablePrefix: string
    var queryType: int
    var firstSetCall: bool

    constructor (dialect: Dialect, tablePrefix: string)
      ensures this.dialect == dialect && this.tablePrefix == tablePrefix
      ensures queryType == NoQuery && firstSetCall
    {
      this.dialect := dialect;
      this.tablePrefix := tablePrefix;
      queryType := NoQuery;
      firstSetCall := true;
    }

    /** getBacktick. */
    function Backtick(): char
    {
      dialect.backtick
    }

    /** The identifier quoting every generated statement uses. */
    function Quote(s: string): string
    {
      [dialect.backtick] + s + [dialect.backtick]
    }
  }
}
