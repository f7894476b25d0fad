/** CascadeAction: the referential actions of a foreign key and their SQL spelling. */
module CascadeAction {
  import opened JavaText

  datatype CascadeAction = Restrict | Cascade | SetNull | SetDefault | NoAction

  /** Enum.name of each constant. */
  function Name(a: CascadeAction): string
  {
    match a
    case Restrict => "RESTRICT"
    case Cascade => "CASCADE"
    case SetNull => "SET_NULL"
    case SetDefault => "SET_DEFAULT"
    case NoAction => "NO_ACTION"
  }

  /** toSql: the constant's name with every underscore replaced by a space. */
  function ToSql(a: CascadeAction): (r: string)
    ensures '_' !in r
    ensures |r| == |Name(a)|
  {
    ReplaceChar(Name(a), '_', ' ')
  }

  /** The SQL keyword of each action, as MySQL spells it in a foreign key clause. */
  function Keyword(a: CascadeAction): string
  {
    match a
    case Restrict => "RESTRICT"
    case Cascade => "CASCADE"
    case SetNull => "SET NULL"
    case SetDefault => "SET DEFAULT"
    case NoAction => "NO ACTION"
  }

  /** toSql produces exactly the SQL keyword of each action. */
  lemma ToSqlIsKeyword(a: CascadeAction)
    ensures ToSql(a) == Keyword(a)
  {
    match a
    case SetNull => TwoWordName(a, "SET", "NULL", "SET NULL");
    case SetDefault => TwoWordName(a, "SET", "DEFAULT", "SET DEFAULT");
    case NoAction => TwoWordName(a, "NO", "ACTION", "NO ACTION");
    case Restrict => ReplaceAbsent(Name(a));
    case Cascade => ReplaceAbsent(Name(a));
  }

  /** Replacing in two joined texts replaces in each. */
  lemma ReplaceSplit(x: string, y: string)
    ensures ReplaceChar(x + y, '_', ' ') == ReplaceChar(x, '_', ' ') + ReplaceChar(y, '_', ' ')
  {
  }

  /** A text without '_' is left as it is. */
  lemma ReplaceAbsent(x: string)
    requires '_' !in x
    ensures ReplaceChar(x, '_', ' ') == x
  {
  }

  /** An action named by two words joined with '_' is written with the words joined by a space. */
  lemma TwoWordName(a: CascadeAction, x: string, y: string, keyword: string)
    requires '_' !in x && '_' !in y
    requires Name(a) == x + "_" + y && keyword == x + " " + y
    ensures ToSql(a) == keyword
  {
    ReplaceSplit(x + "_", y);
    ReplaceSplit(x, "_");
    ReplaceAbsent(x);
    ReplaceAbsent(y);
  }

  /** Distinct actions are written differently in SQL. */
  lemma ToSqlInjective(a: CascadeAction, b: CascadeAction)
    requires ToSql(a) == ToSql(b)
    ensures a == b
  {
    ToSqlIsKeyword(a);
    ToSqlIsKeyword(b);
  }
}
