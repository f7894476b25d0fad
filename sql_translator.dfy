/**
 * SqlDatabase's translation of a query chain into SQL text: one fragment per node
 * (toSql), the WHERE condition text (whereStatementToSql) and the walk along the
 * child links with its two pieces of translator state (parseQuery). The nodes are
 * plain values here; the mutable query objects that produce them are in QueryChain.
 */
module SqlTranslator {
  import opened Wrappers
  import opened JavaText
  import opened JavaTypes
  import opened StringUtil
  import opened Database
  import opened SqlConverters
  import opened AbstractTable

  /** The sort directions of ORDER BY, named as their enum constants. */
  datatype Order = Asc | Desc

  function OrderName(o: Order): string
  {
    match o
    case Asc => "ASC"
    case Desc => "DESC"
  }

  /** The condition classes the Query factories create. */
  datatype ConditionKind = Equals | GreaterThan | GreaterThanEquals | Like(pattern: string)

  /** A condition as the translator sees it: its class, its operand and its two flags. */
  datatype Cond = Cond(kind: ConditionKind, value: ObjectValue, negated: bool, inverted: bool)

  /** WhereQuery and its two subclasses AndQuery and OrQuery. */
  datatype Clause = WhereClause | AndClause | OrClause

  /** One node of a query chain, with the state the translator reads from it. */
  datatype Node =
    | FromNode
    | SelectNode(columns: Option<seq<Value>>)
    | UpdateNode
    | DeleteNode
    | SetNode(column: string, value: ObjectValue)
    | WhereNode(clause: Clause, column: string, cond: Option<Cond>, parenState: int)
    | OrderByNode(column: string, order: Order)
    | LimitNode(offset: int, rowCount: int)
    | OtherNode(className: ClassName)   // a Query subclass the translator does not know

  /** What toSqlValue and the identifier quoting depend on: the table's converters and its database. */
  datatype Renderer = Renderer(hierarchy: Hierarchy, providers: Providers, convert: ConvertFunction, dbClass: ClassName, backtick: char)

  function SqlValue(rd: Renderer, o: ObjectValue, strict: bool): Result<Option<string>>
  {
    ToSqlValue(rd.hierarchy, rd.providers, rd.convert, rd.dbClass, o, strict)
  }

  /** Java string concatenation of a string that may be null. */
  function OrNull(s: Option<string>): string
  {
    if s.None? then "null" else s.value
  }

  function Quoted(bt: char, name: string): string
  {
    [bt] + name + [bt]
  }

  /**
   * The operator written for a GreaterThanCondition (orEquals for the GreaterThanEquals
   * subclass): lt and lte set inverted, not() flips negated.
   */
  function ComparisonOperator(orEquals: bool, inverted: bool, negated: bool): string
  {
    (if (inverted && !negated) || (!inverted && negated) then "<" else ">")
    + (if (orEquals && !negated) || (!orEquals && negated) then "=" else "")
  }

  /** What the SQL comparison a op b means, for the four operators above. */
  predicate OperatorHolds(op: string, a: int, b: int)
  {
    if op == "<" then a < b
    else if op == "<=" then a <= b
    else if op == ">" then a > b
    else if op == ">=" then a >= b
    else false
  }

  /** The comparison gt, gte, lt and lte ask for: column against operand. */
  predicate Asked(orEquals: bool, inverted: bool, a: int, b: int)
  {
    if inverted then (if orEquals then a <= b else a < b)
    else (if orEquals then a >= b else a > b)
  }

  /**
   * The written operator means exactly what the factory asked for, and its negation
   * when not() was applied an odd number of times.
   */
  lemma ComparisonOperatorMeaning(orEquals: bool, inverted: bool, negated: bool, a: int, b: int)
    ensures OperatorHolds(ComparisonOperator(orEquals, inverted, negated), a, b) <==> (Asked(orEquals, inverted, a, b) != negated)
  {
    var op := ComparisonOperator(orEquals, inverted, negated);
    if inverted != negated {
      if orEquals != negated {
        assert op == "<=";
      } else {
        assert op == "<";
      }
    } else {
      if orEquals != negated {
        assert op == ">=";
      } else {
        assert op == ">";
      }
    }
  }

  /**
   * The operators of gt, lt, gte and lte (inverted for lt and lte) and of not() applied
   * to each: a negated comparison is written as the opposite comparison.
   */
  lemma OperatorTable()
    ensures ComparisonOperator(false, false, false) == ">" && ComparisonOperator(false, false, true) == "<="
    ensures ComparisonOperator(false, true, false) == "<" && ComparisonOperator(false, true, true) == ">="
    ensures ComparisonOperator(true, false, false) == ">=" && ComparisonOperator(true, false, true) == "<"
    ensures ComparisonOperator(true, true, false) == "<=" && ComparisonOperator(true, true, true) == ">"
  {
  }

  /** The operator of an EqualsCondition: = or !=, and IS or IS NOT against null. */
  function EqualsOperator(isNull: bool, negated: bool): string
  {
    if isNull then (if negated then "IS NOT" else "IS")
    else if negated then "!=" else "="
  }

  /**
   * whereStatementToSql: optional parentheses, the quoted column, then the condition.
   * Comparisons render their operand through toSqlValue (non-strict, so "?" stays a
   * placeholder); equality writes the operand's toString unquoted; LIKE writes the
   * pattern straight after the keyword. A null condition is dereferenced.
   */
  function WhereStatement(rd: Renderer, column: string, cond: Option<Cond>, parenState: int): (r: Result<string>)
    ensures cond.None? ==> r == Err(NullPointer)
    ensures r.Ok? ==> |r.value| > |column| + 2
  {
    if cond.None? then Err(NullPointer)
    else
      var c := cond.value;
      var prefix := if parenState == 1 then "(" else "";
      var suffix := if parenState == 2 then ")" else "";
      var col := Quoted(rd.backtick, column);
      match c.kind
      case GreaterThan =>
        var v := SqlValue(rd, c.value, false);
        if v.Err? then Err(v.error)
        else Ok(prefix + col + " " + ComparisonOperator(false, c.inverted, c.negated) + " " + OrNull(v.value) + suffix)
      case GreaterThanEquals =>
        var v := SqlValue(rd, c.value, false);
        if v.Err? then Err(v.error)
        else Ok(prefix + col + " " + ComparisonOperator(true, c.inverted, c.negated) + " " + OrNull(v.value) + suffix)
      case Equals =>
        Ok(prefix + col + " " + EqualsOperator(c.value.Null?, c.negated) + " " + (if c.value.Null? then "NULL" else ToString(c.value)) + suffix)
      case Like(pattern) =>
        Ok(prefix + col + " " + (if c.negated then "NOT LIKE" else "LIKE") + pattern + suffix)
  }

  function ClauseKeyword(c: Clause): string
  {
    match c
    case WhereClause => "WHERE "
    case AndClause => "AND "
    case OrClause => "OR "
  }

  /** The outcome of one translation step and the translator state after it. */
  datatype Step = Step(out: Result<string>, queryType: int, firstSetCall: bool)

  /** The SELECT fragment; a null column array is dereferenced after the statement kind is recorded. */
  function SelectFragment(bt: char, columns: Option<seq<Value>>, firstSetCall: bool): Step
  {
    if columns.None? then Step(Err(NullPointer), SelectQuery, firstSetCall)
    else Step(Ok("SELECT " + JoinFrom(columns.value, ",", "") + " FROM " + Quoted(bt, TablePlaceholder) + " "), SelectQuery, firstSetCall)
  }

  /**
   * The SET fragment: refused unless the statement is an UPDATE; the first SET of a
   * statement writes the keyword and clears the flag, later ones write a comma.
   */
  function SetFragment(rd: Renderer, column: string, value: ObjectValue, queryType: int, firstSetCall: bool): Step
  {
    if queryType != UpdateQuery then
      Step(Err(IllegalState("Can only use SET statements on UPDATE queries!")), queryType, firstSetCall)
    else
      var v := SqlValue(rd, value, false);
      if v.Err? then Step(Err(v.error), queryType, firstSetCall)
      else
        var statement := Quoted(rd.backtick, column) + "=" + OrNull(v.value) + " ";
        if !firstSetCall then Step(Ok(", " + statement), queryType, firstSetCall)
        else Step(Ok("SET " + statement), queryType, false)
  }

  /** The fragment of a WHERE, AND or OR node. */
  function ClauseFragment(rd: Renderer, clause: Clause, column: string, cond: Option<Cond>, parenState: int, queryType: int, firstSetCall: bool): Step
  {
    var w := WhereStatement(rd, column, cond, parenState);
    if w.Err? then Step(Err(w.error), queryType, firstSetCall)
    else Step(Ok(ClauseKeyword(clause) + w.value + " "), queryType, firstSetCall)
  }

  /**
   * toSql for one node: SELECT, UPDATE and DELETE record the statement kind, the other
   * nodes read and (SET) update the translator state.
   */
  function Fragment(rd: Renderer, n: Node, queryType: int, firstSetCall: bool): Step
  {
    match n
    case FromNode => Step(Ok(""), queryType, firstSetCall)
    case SelectNode(columns) => SelectFragment(rd.backtick, columns, firstSetCall)
    case UpdateNode => Step(Ok("UPDATE " + Quoted(rd.backtick, TablePlaceholder) + " "), UpdateQuery, firstSetCall)
    case DeleteNode => Step(Ok("DELETE FROM " + Quoted(rd.backtick, TablePlaceholder) + " "), DeleteQuery, firstSetCall)
    case SetNode(column, value) => SetFragment(rd, column, value, queryType, firstSetCall)
    case WhereNode(clause, column, cond, parenState) => ClauseFragment(rd, clause, column, cond, parenState, queryType, firstSetCall)
    case OrderByNode(column, order) =>
      Step(Ok("ORDER BY " + Quoted(rd.backtick, column) + " " + ToUpper(OrderName(order)) + " "), queryType, firstSetCall)
    case LimitNode(offset, rowCount) =>
      Step(Ok("LIMIT " + IntToString(offset) + "," + IntToString(rowCount) + " "), queryType, firstSetCall)
    case OtherNode(className) =>
      Step(Err(IllegalState("Query not supported: " + className)), queryType, firstSetCall)
  }

  /**
   * parseQuery from the given node on, with the text so far in acc: the first failing
   * fragment ends the walk and leaves the state as that fragment left it; a walk that
   * reaches the end resets the state and trims the text.
   */
  function Walk(rd: Renderer, nodes: seq<Node>, queryType: int, firstSetCall: bool, acc: string): Step
    decreases |nodes|
  {
    if nodes == [] then Step(Ok(Trim(acc)), NoQuery, true)
    else
      var s := Fragment(rd, nodes[0], queryType, firstSetCall);
      if s.out.Err? then s
      else Walk(rd, nodes[1..], s.queryType, s.firstSetCall, acc + s.out.value)
  }

  /** parseQuery(start), given the translator state it finds. */
  function Parse(rd: Renderer, nodes: seq<Node>, queryType: int, firstSetCall: bool): Step
  {
    Walk(rd, nodes, queryType, firstSetCall, "")
  }

  /** The statement kind recorded after translating one node. */
  function KindAfter(n: Node, queryType: int): int
  {
    if n.SelectNode? then SelectQuery
    else if n.UpdateNode? then UpdateQuery
    else if n.DeleteNode? then DeleteQuery
    else queryType
  }

  /** The statement kind the translator holds after the given nodes. */
  function StatementAfter(nodes: seq<Node>, queryType: int): int
    decreases |nodes|
  {
    if nodes == [] then queryType else StatementAfter(nodes[1..], KindAfter(nodes[0], queryType))
  }

  /**
   * A successful fragment leaves the statement kind of its node, and the first-SET flag
   * stays set only past a node that is not a SET node.
   */
  lemma FragmentState(rd: Renderer, n: Node, queryType: int, firstSetCall: bool)
    ensures var s := Fragment(rd, n, queryType, firstSetCall);
      s.out.Ok? ==> s.queryType == KindAfter(n, queryType) && s.firstSetCall == (firstSetCall && !n.SetNode?)
  {
  }

  /** Whether any of the nodes is a SET node. */
  predicate HasSet(nodes: seq<Node>)
  {
    exists k :: 0 <= k < |nodes| && nodes[k].SetNode?
  }

  /**
   * In a walk that completes, node i translates without error from the state the nodes
   * before it leave: their statement kind, and the flag still set exactly when none of
   * them is a SET node.
   */
  lemma {:induction false} WalkReachesNode(rd: Renderer, nodes: seq<Node>, queryType: int, firstSetCall: bool, acc: string, i: int)
    requires Walk(rd, nodes, queryType, firstSetCall, acc).out.Ok?
    requires 0 <= i < |nodes|
    ensures Fragment(rd, nodes[i], StatementAfter(nodes[..i], queryType), firstSetCall && !HasSet(nodes[..i])).out.Ok?
    decreases |nodes|
  {
    var s := Fragment(rd, nodes[0], queryType, firstSetCall);
    if i == 0 {
      assert nodes[..0] == [];
      assert !HasSet(nodes[..0]);
    } else {
      FragmentState(rd, nodes[0], queryType, firstSetCall);
      WalkReachesNode(rd, nodes[1..], s.queryType, s.firstSetCall, acc + s.out.value, i - 1);
      assert nodes[..i][1..] == nodes[1..][..i - 1];
      assert nodes[1..][i - 1] == nodes[i];
      HasSetSplit(nodes[..i]);
    }
  }

  /** A non-empty run of nodes holds a SET node iff its head is one or its tail holds one. */
  lemma HasSetSplit(nodes: seq<Node>)
    requires nodes != []
    ensures HasSet(nodes) <==> nodes[0].SetNode? || HasSet(nodes[1..])
  {
    if HasSet(nodes[1..]) {
      var k :| 0 <= k < |nodes[1..]| && nodes[1..][k].SetNode?;
      assert nodes[k + 1].SetNode?;
    }
    if HasSet(nodes) && !nodes[0].SetNode? {
      var k :| 0 <= k < |nodes| && nodes[k].SetNode?;
      assert nodes[1..][k - 1].SetNode?;
    }
  }

  /**
   * In an UPDATE that translates, starting from the reset state, a SET node's fragment
   * opens with the SET keyword exactly when no SET node precedes it, and with a comma
   * otherwise.
   */
  lemma SetKeywordOnFirstSetOnly(rd: Renderer, nodes: seq<Node>, queryType: int, acc: string, i: int)
    requires Walk(rd, nodes, queryType, true, acc).out.Ok?
    requires 0 <= i < |nodes| && nodes[i].SetNode?
    ensures var s := Fragment(rd, nodes[i], StatementAfter(nodes[..i], queryType), !HasSet(nodes[..i]));
      s.out.Ok? && |s.out.value| >= 4
      && (!HasSet(nodes[..i]) ==> s.out.value[..4] == "SET ")
      && (HasSet(nodes[..i]) ==> s.out.value[..2] == ", ")
  {
    WalkReachesNode(rd, nodes, queryType, true, acc, i);
  }

  /**
   * A completed parseQuery resets the translator state for the next query and returns
   * text with nothing left to trim.
   */
  lemma {:induction false} WalkResetsState(rd: Renderer, nodes: seq<Node>, queryType: int, firstSetCall: bool, acc: string)
    ensures var s := Walk(rd, nodes, queryType, firstSetCall, acc);
      s.out.Ok? ==> s.queryType == NoQuery && s.firstSetCall && Trim(s.out.value) == s.out.value
    decreases |nodes|
  {
    if nodes == [] {
      TrimIdempotent(acc);
    } else {
      var s := Fragment(rd, nodes[0], queryType, firstSetCall);
      if s.out.Ok? {
        WalkResetsState(rd, nodes[1..], s.queryType, s.firstSetCall, acc + s.out.value);
      }
    }
  }

  /** In a query that translates, every SET node comes inside an UPDATE statement. */
  lemma {:induction false} SetOnlyInUpdate(rd: Renderer, nodes: seq<Node>, queryType: int, firstSetCall: bool, acc: string, i: int)
    requires Walk(rd, nodes, queryType, firstSetCall, acc).out.Ok?
    requires 0 <= i < |nodes| && nodes[i].SetNode?
    ensures StatementAfter(nodes[..i], queryType) == UpdateQuery
    decreases |nodes|
  {
    var s := Fragment(rd, nodes[0], queryType, firstSetCall);
    FragmentState(rd, nodes[0], queryType, firstSetCall);
    if i > 0 {
      SetOnlyInUpdate(rd, nodes[1..], s.queryType, s.firstSetCall, acc + s.out.value, i - 1);
      assert nodes[..i][1..] == nodes[1..][..i - 1];
    }
  }

  /** A chain that translates holds no node of a class the translator does not know. */
  lemma {:induction false} TranslatedChainHasOnlyKnownNodes(rd: Renderer, nodes: seq<Node>, queryType: int, firstSetCall: bool, acc: string, i: int)
    requires Walk(rd, nodes, queryType, firstSetCall, acc).out.Ok?
    requires 0 <= i < |nodes|
    ensures !nodes[i].OtherNode?
    decreases |nodes|
  {
    var s := Fragment(rd, nodes[0], queryType, firstSetCall);
    if i > 0 {
      TranslatedChainHasOnlyKnownNodes(rd, nodes[1..], s.queryType, s.firstSetCall, acc + s.out.value, i - 1);
    }
  }

  /** The column text of an equality test against a non-null operand. */
  lemma EqualsStatement(rd: Renderer, column: string, v: ObjectValue, parenState: int)
    requires !v.Null?
    ensures WhereStatement(rd, column, Some(Cond(Equals, v, false, false)), parenState)
      == Ok((if parenState == 1 then "(" else "") + Quoted(rd.backtick, column) + " = " + ToString(v) + (if parenState == 2 then ")" else ""))
  {
    var prefix := if parenState == 1 then "(" else "";
    var suffix := if parenState == 2 then ")" else "";
    assert EqualsOperator(false, false) == "=";
    assert prefix + Quoted(rd.backtick, column) + " " + "=" + " " + ToString(v) + suffix
      == prefix + Quoted(rd.backtick, column) + " = " + ToString(v) + suffix;
  }

  /** One successful step of the walk. */
  lemma WalkStep(rd: Renderer, nodes: seq<Node>, queryType: int, firstSetCall: bool, acc: string, fragment: string, queryType': int, firstSetCall': bool)
    requires nodes != [] && Fragment(rd, nodes[0], queryType, firstSetCall) == Step(Ok(fragment), queryType', firstSetCall')
    ensures Walk(rd, nodes, queryType, firstSetCall, acc) == Walk(rd, nodes[1..], queryType', firstSetCall', acc + fragment)
  {
  }

  /** A failing step ends the walk with that step's outcome and state. */
  lemma WalkFails(rd: Renderer, nodes: seq<Node>, queryType: int, firstSetCall: bool, acc: string)
    requires nodes != [] && Fragment(rd, nodes[0], queryType, firstSetCall).out.Err?
    ensures Walk(rd, nodes, queryType, firstSetCall, acc) == Fragment(rd, nodes[0], queryType, firstSetCall)
  {
  }

  /** The walk from node i on, after node i translated to the given step. */
  lemma WalkAdvance(rd: Renderer, nodes: seq<Node>, i: nat, queryType: int, firstSetCall: bool, acc: string, s: Step)
    requires i < |nodes| && Fragment(rd, nodes[i], queryType, firstSetCall) == s
    ensures s.out.Err? ==> Walk(rd, nodes[i..], queryType, firstSetCall, acc) == s
    ensures s.out.Ok? ==> Walk(rd, nodes[i..], queryType, firstSetCall, acc) == Walk(rd, nodes[i + 1..], s.queryType, s.firstSetCall, acc + s.out.value)
  {
    assert nodes[i..][0] == nodes[i];
    assert nodes[i..][1..] == nodes[i + 1..];
  }

  /** parseQuery over two nodes whose fragments both translate. */
  lemma WalkTwo(rd: Renderer, n1: Node, n2: Node, queryType: int, firstSetCall: bool)
    requires Fragment(rd, n1, queryType, firstSetCall).out.Ok?
    requires var s1 := Fragment(rd, n1, queryType, firstSetCall); Fragment(rd, n2, s1.queryType, s1.firstSetCall).out.Ok?
    ensures var s1 := Fragment(rd, n1, queryType, firstSetCall);
      var s2 := Fragment(rd, n2, s1.queryType, s1.firstSetCall);
      Parse(rd, [n1, n2], queryType, firstSetCall) == Step(Ok(Trim(s1.out.value + s2.out.value)), NoQuery, true)
  {
    var s1 := Fragment(rd, n1, queryType, firstSetCall);
    var s2 := Fragment(rd, n2, s1.queryType, s1.firstSetCall);
    var text := s1.out.value + s2.out.value;
    assert Walk(rd, [n1, n2], queryType, firstSetCall, "") == Walk(rd, [n2], s1.queryType, s1.firstSetCall, s1.out.value) by {
      WalkStep(rd, [n1, n2], queryType, firstSetCall, "", s1.out.value, s1.queryType, s1.firstSetCall);
      assert [n1, n2][1..] == [n2];
      assert "" + s1.out.value == s1.out.value;
    }
    assert Walk(rd, [n2], s1.queryType, s1.firstSetCall, s1.out.value) == Walk(rd, [], s2.queryType, s2.firstSetCall, text) by {
      WalkStep(rd, [n2], s1.queryType, s1.firstSetCall, s1.out.value, s2.out.value, s2.queryType, s2.firstSetCall);
      assert [n2][1..] == [];
    }
  }

  /** Two successful steps of the walk. */
  lemma WalkPair(rd: Renderer, nodes: seq<Node>, queryType: int, firstSetCall: bool, acc: string)
    requires |nodes| >= 2 && Fragment(rd, nodes[0], queryType, firstSetCall).out.Ok?
    requires var s1 := Fragment(rd, nodes[0], queryType, firstSetCall); Fragment(rd, nodes[1], s1.queryType, s1.firstSetCall).out.Ok?
    ensures var s1 := Fragment(rd, nodes[0], queryType, firstSetCall);
      var s2 := Fragment(rd, nodes[1], s1.queryType, s1.firstSetCall);
      Walk(rd, nodes, queryType, firstSetCall, acc) == Walk(rd, nodes[2..], s2.queryType, s2.firstSetCall, acc + s1.out.value + s2.out.value)
  {
    var s1 := Fragment(rd, nodes[0], queryType, firstSetCall);
    WalkStep(rd, nodes, queryType, firstSetCall, acc, s1.out.value, s1.queryType, s1.firstSetCall);
    assert nodes[1..][0] == nodes[1] && nodes[1..][1..] == nodes[2..];
  }

  /** Trimming text that starts with a letter and ends in one space drops just that space. */
  lemma TrimOneSpace(text: string)
    requires |text| >= 2 && !IsTrimmable(text[0]) && text[|text| - 1] == ' ' && !IsTrimmable(text[|text| - 2])
    ensures Trim(text) == text[..|text| - 1]
  {
    assert TrimStart(text) == text;
    assert TrimEnd(text) == TrimEnd(text[..|text| - 1]) == text[..|text| - 1];
  }

  /** Trimming a text whose last part ends in one space drops just that space. */
  lemma TrimAppendedSpace(head: string, tail: string)
    requires |head| >= 1 && !IsTrimmable(head[0])
    requires |tail| >= 2 && tail[|tail| - 1] == ' ' && !IsTrimmable(tail[|tail| - 2])
    ensures Trim(head + tail) == head + tail[..|tail| - 1]
  {
    var text := head + tail;
    assert text[|text| - 1] == ' ' && text[|text| - 2] == tail[|tail| - 2];
    TrimOneSpace(text);
    assert text[..|text| - 1] == head + tail[..|tail| - 1];
  }

  /** The fragment of select(): every column, from the table placeholder. */
  lemma SelectAllFragment(rd: Renderer, queryType: int, firstSetCall: bool)
    requires rd.backtick == '`'
    ensures Fragment(rd, SelectNode(Some([VStr("*")])), queryType, firstSetCall) == Step(Ok("SELECT * FROM `{TABLE}` "), SelectQuery, firstSetCall)
  {
    assert JoinFrom([VStr("*")], ",", "") == "*";
    assert Quoted(rd.backtick, TablePlaceholder) == "`{TABLE}`";
    assert "SELECT " + "*" + " FROM " + "`{TABLE}`" + " " == "SELECT * FROM `{TABLE}` ";
  }

  /** The UPDATE fragment. */
  lemma UpdateFragment(rd: Renderer, queryType: int, firstSetCall: bool)
    requires rd.backtick == '`'
    ensures Fragment(rd, UpdateNode, queryType, firstSetCall) == Step(Ok("UPDATE `{TABLE}` "), UpdateQuery, firstSetCall)
  {
    assert Quoted(rd.backtick, TablePlaceholder) == "`{TABLE}`";
    assert "UPDATE " + "`{TABLE}`" + " " == "UPDATE `{TABLE}` ";
  }

  /** The fragment of a WHERE, AND or OR node whose condition renders. */
  lemma ClauseFragmentText(rd: Renderer, clause: Clause, column: string, cond: Option<Cond>, parenState: int, queryType: int, firstSetCall: bool)
    requires WhereStatement(rd, column, cond, parenState).Ok?
    ensures Fragment(rd, WhereNode(clause, column, cond, parenState), queryType, firstSetCall)
      == Step(Ok(ClauseKeyword(clause) + WhereStatement(rd, column, cond, parenState).value + " "), queryType, firstSetCall)
  {
  }

  /** The fragment of where(column, eq("?")) with the MySQL backtick. */
  lemma PlaceholderWhereFragment(rd: Renderer, queryType: int, firstSetCall: bool)
    requires rd.backtick == '`'
    ensures Fragment(rd, WhereNode(WhereClause, "id", Some(Cond(Equals, VStr("?"), false, false)), 0), queryType, firstSetCall)
      == Step(Ok("WHERE `id` = ? "), queryType, firstSetCall)
  {
    EqualsStatement(rd, "id", VStr("?"), 0);
    assert Quoted(rd.backtick, "id") == "`id`";
    assert "" + "`id`" + " = " + "?" + "" == "`id` = ?";
    ClauseFragmentText(rd, WhereClause, "id", Some(Cond(Equals, VStr("?"), false, false)), 0, queryType, firstSetCall);
    assert "WHERE " + "`id` = ?" + " " == "WHERE `id` = ? ";
  }

  /** The text of the test query from(t).select().where("id", eq("?")). */
  lemma SelectWhereExample(rd: Renderer)
    requires rd.backtick == '`'
    ensures Parse(rd, [SelectNode(Some([VStr("*")])), WhereNode(WhereClause, "id", Some(Cond(Equals, VStr("?"), false, false)), 0)], NoQuery, true)
      == Step(Ok("SELECT * FROM `{TABLE}` WHERE `id` = ?"), NoQuery, true)
  {
    SelectAllFragment(rd, NoQuery, true);
    PlaceholderWhereFragment(rd, SelectQuery, true);
    WalkTwo(rd, SelectNode(Some([VStr("*")])), WhereNode(WhereClause, "id", Some(Cond(Equals, VStr("?"), false, false)), 0), NoQuery, true);
    var text := "SELECT * FROM `{TABLE}` " + "WHERE `id` = ? ";
    TrimOneSpace(text);
    assert text[..|text| - 1] == "SELECT * FROM `{TABLE}` WHERE `id` = ?";
  }

  /** The SET fragment for a value that renders as the placeholder. */
  lemma PlaceholderSet(rd: Renderer, column: string, firstSetCall: bool)
    requires FindConverter(rd.hierarchy, rd.providers, DbChain(rd.hierarchy, rd.dbClass), ClassNameOf(Str)) == Ok(None)
    ensures Fragment(rd, SetNode(column, VStr("?")), UpdateQuery, firstSetCall)
      == Step(Ok((if firstSetCall then "SET " else ", ") + (Quoted(rd.backtick, column) + "=? ")), UpdateQuery, false)
  {
    NonStrictSpecialStrings(rd.hierarchy, rd.providers, rd.convert, rd.dbClass);
    assert SqlValue(rd, VStr("?"), false) == Ok(Some("?"));
    assert OrNull(Some("?")) == "?";
    var statement := Quoted(rd.backtick, column) + "=" + "?" + " ";
    assert statement == Quoted(rd.backtick, column) + "=? ";
  }

  /** The SET fragment for column "a", "b" or "c" with the MySQL backtick. */
  lemma PlaceholderSetFragment(rd: Renderer, column: string, firstSetCall: bool)
    requires rd.backtick == '`' && |column| == 1
    requires FindConverter(rd.hierarchy, rd.providers, DbChain(rd.hierarchy, rd.dbClass), ClassNameOf(Str)) == Ok(None)
    ensures Fragment(rd, SetNode(column, VStr("?")), UpdateQuery, firstSetCall)
      == Step(Ok((if firstSetCall then "SET `" else ", `") + column + "`=? "), UpdateQuery, false)
  {
    PlaceholderSet(rd, column, firstSetCall);
    var k := if firstSetCall then "SET " else ", ";
    assert k + (Quoted(rd.backtick, column) + "=? ") == (if firstSetCall then "SET `" else ", `") + column + "`=? ";
  }

  /** The nodes of update().set("a", "?").set("b", "?").where("id", eq("?")). */
  const UpdateSetNodes: seq<Node> := [UpdateNode, SetNode("a", VStr("?")), SetNode("b", VStr("?")),
                                      WhereNode(WhereClause, "id", Some(Cond(Equals, VStr("?"), false, false)), 0)]

  /** The UPDATE and the first SET of UpdateSetNodes. */
  lemma UpdateSetHead(rd: Renderer)
    requires rd.backtick == '`'
    requires FindConverter(rd.hierarchy, rd.providers, DbChain(rd.hierarchy, rd.dbClass), ClassNameOf(Str)) == Ok(None)
    ensures Walk(rd, UpdateSetNodes, NoQuery, true, "") == Walk(rd, UpdateSetNodes[2..], UpdateQuery, false, "UPDATE `{TABLE}` " + "SET `a`=? ")
  {
    UpdateFragment(rd, NoQuery, true);
    PlaceholderSetFragment(rd, "a", true);
    assert "SET `" + "a" + "`=? " == "SET `a`=? ";
    WalkPair(rd, UpdateSetNodes, NoQuery, true, "");
    assert "" + "UPDATE `{TABLE}` " + "SET `a`=? " == "UPDATE `{TABLE}` " + "SET `a`=? ";
  }

  /** The second SET, written with a comma, and the WHERE of UpdateSetNodes. */
  lemma UpdateSetTail(rd: Renderer)
    requires rd.backtick == '`'
    requires FindConverter(rd.hierarchy, rd.providers, DbChain(rd.hierarchy, rd.dbClass), ClassNameOf(Str)) == Ok(None)
    ensures Walk(rd, UpdateSetNodes[2..], UpdateQuery, false, "UPDATE `{TABLE}` " + "SET `a`=? ")
      == Walk(rd, [], UpdateQuery, false, "UPDATE `{TABLE}` " + "SET `a`=? " + ", `b`=? " + "WHERE `id` = ? ")
  {
    var t2 := "UPDATE `{TABLE}` " + "SET `a`=? ";
    PlaceholderSetFragment(rd, "b", false);
    assert ", `" + "b" + "`=? " == ", `b`=? ";
    PlaceholderWhereFragment(rd, UpdateQuery, false);
    WalkPair(rd, UpdateSetNodes[2..], UpdateQuery, false, t2);
    assert UpdateSetNodes[2..][2..] == [];
  }

  /**
   * update().set("a", "?").set("b", "?").where("id", eq("?")): the first SET writes the
   * keyword, the second a comma.
   */
  lemma UpdateSetExample(rd: Renderer)
    requires rd.backtick == '`'
    requires FindConverter(rd.hierarchy, rd.providers, DbChain(rd.hierarchy, rd.dbClass), ClassNameOf(Str)) == Ok(None)
    ensures Parse(rd, UpdateSetNodes, NoQuery, true).out == Ok("UPDATE `{TABLE}` " + "SET `a`=? " + ", `b`=? " + "WHERE `id` = ?")
  {
    UpdateSetHead(rd);
    UpdateSetTail(rd);
    TrimAppendedSpace("UPDATE `{TABLE}` " + "SET `a`=? " + ", `b`=? ", "WHERE `id` = ? ");
    assert "WHERE `id` = ? "[..14] == "WHERE `id` = ?";
  }

  /** A SET directly after a SELECT is refused. */
  lemma SetAfterSelectRefused(rd: Renderer)
    ensures Parse(rd, [SelectNode(Some([VStr("*")])), SetNode("a", VStr("?"))], NoQuery, true)
      == Step(Err(IllegalState("Can only use SET statements on UPDATE queries!")), SelectQuery, true)
  {
    assert Fragment(rd, SelectNode(Some([VStr("*")])), NoQuery, true).out.Ok?;
  }

  /**
   * A parseQuery that fails part-way keeps its state: a SET whose value is null fails
   * after an earlier SET has cleared the first-SET flag, and the statement kind stays UPDATE.
   */
  lemma FailedSetKeepsState(rd: Renderer)
    requires rd.backtick == '`'
    requires FindConverter(rd.hierarchy, rd.providers, DbChain(rd.hierarchy, rd.dbClass), ClassNameOf(Str)) == Ok(None)
    ensures Parse(rd, [UpdateNode, SetNode("a", VStr("?")), SetNode("b", Null)], NoQuery, true) == Step(Err(NullPointer), UpdateQuery, false)
  {
    var nodes := [UpdateNode, SetNode("a", VStr("?")), SetNode("b", Null)];
    UpdateFragment(rd, NoQuery, true);
    WalkStep(rd, nodes, NoQuery, true, "", "UPDATE `{TABLE}` ", UpdateQuery, true);
    PlaceholderSetFragment(rd, "a", true);
    WalkStep(rd, nodes[1..], UpdateQuery, true, "" + "UPDATE `{TABLE}` ", "SET `" + "a" + "`=? ", UpdateQuery, false);
    assert nodes[1..][1..] == [SetNode("b", Null)];
    assert Fragment(rd, SetNode("b", Null), UpdateQuery, false) == Step(Err(NullPointer), UpdateQuery, false);
  }

  /** With that leaked state, the next UPDATE on the same database writes its first SET with a comma. */
  lemma LeakedStateBreaksNextUpdate(rd: Renderer)
    requires rd.backtick == '`'
    requires FindConverter(rd.hierarchy, rd.providers, DbChain(rd.hierarchy, rd.dbClass), ClassNameOf(Str)) == Ok(None)
    ensures Parse(rd, [UpdateNode, SetNode("c", VStr("?"))], UpdateQuery, false).out == Ok("UPDATE `{TABLE}` " + ", `c`=?")
  {
    UpdateFragment(rd, UpdateQuery, false);
    PlaceholderSetFragment(rd, "c", false);
    WalkTwo(rd, UpdateNode, SetNode("c", VStr("?")), UpdateQuery, false);
    assert ", `" + "c" + "`=? " == ", `c`=? ";
    assert Trim("UPDATE `{TABLE}` " + ", `c`=? ") == "UPDATE `{TABLE}` " + ", `c`=?" by {
      TrimAppendedSpace("UPDATE `{TABLE}` ", ", `c`=? ");
      assert ", `c`=? "[..7] == ", `c`=?";
    }
  }

  /** The WHERE node that opens the parenthesis. */
  lemma OpeningFragment(rd: Renderer)
    requires rd.backtick == '`'
    ensures Fragment(rd, WhereNode(WhereClause, "a", Some(Cond(Equals, VInt(1), false, false)), 1), DeleteQuery, true)
      == Step(Ok("WHERE (`a` = 1 "), DeleteQuery, true)
  {
    assert ToString(VInt(1)) == "1";
    assert Quoted(rd.backtick, "a") == "`a`";
    EqualsStatement(rd, "a", VInt(1), 1);
    assert "(" + "`a`" + " = " + "1" + "" == "(`a` = 1";
    ClauseFragmentText(rd, WhereClause, "a", Some(Cond(Equals, VInt(1), false, false)), 1, DeleteQuery, true);
    assert "WHERE " + "(`a` = 1" + " " == "WHERE (`a` = 1 ";
  }

  /** The OR node that closes the parenthesis. */
  lemma ClosingFragment(rd: Renderer)
    requires rd.backtick == '`'
    ensures Fragment(rd, WhereNode(OrClause, "b", Some(Cond(Equals, VInt(2), false, false)), 2), DeleteQuery, true)
      == Step(Ok("OR `b` = 2) "), DeleteQuery, true)
  {
    assert ToString(VInt(2)) == "2";
    assert Quoted(rd.backtick, "b") == "`b`";
    EqualsStatement(rd, "b", VInt(2), 2);
    assert "" + "`b`" + " = " + "2" + ")" == "`b` = 2)";
    ClauseFragmentText(rd, OrClause, "b", Some(Cond(Equals, VInt(2), false, false)), 2, DeleteQuery, true);
    assert "OR " + "`b` = 2)" + " " == "OR `b` = 2) ";
  }

  /**
   * where("a", eq(1)).openParanthesis().or("b", eq(2)).closeParanthesis(): the parenthesis
   * state of each node puts the bracket around its own condition.
   */
  lemma ParenthesisExample(rd: Renderer)
    requires rd.backtick == '`'
    ensures Parse(rd, [WhereNode(WhereClause, "a", Some(Cond(Equals, VInt(1), false, false)), 1),
                       WhereNode(OrClause, "b", Some(Cond(Equals, VInt(2), false, false)), 2)], DeleteQuery, true).out
      == Ok("WHERE (`a` = 1 " + "OR `b` = 2)")
  {
    var n1 := WhereNode(WhereClause, "a", Some(Cond(Equals, VInt(1), false, false)), 1);
    var n2 := WhereNode(OrClause, "b", Some(Cond(Equals, VInt(2), false, false)), 2);
    var f1, f2 := "WHERE (`a` = 1 ", "OR `b` = 2) ";
    OpeningFragment(rd);
    ClosingFragment(rd);
    WalkTwo(rd, n1, n2, DeleteQuery, true);
    assert Trim(f1 + f2) == f1 + "OR `b` = 2)" by {
      TrimAppendedSpace(f1, f2);
      assert f2[..|f2| - 1] == "OR `b` = 2)";
    }
  }

  /** The LIKE pattern is written straight after the keyword, without quotes or a space. */
  lemma LikePatternUnquoted(rd: Renderer, negated: bool)
    requires rd.backtick == '`'
    ensures WhereStatement(rd, "name", Some(Cond(Like("%a%"), Null, negated, false)), 0)
      == Ok(if negated then "`name` NOT LIKE%a%" else "`name` LIKE%a%")
  {
    var kw := if negated then "NOT LIKE" else "LIKE";
    assert Quoted(rd.backtick, "name") == "`name`";
    assert "" + "`name`" + " " + kw + "%a%" + "" == (if negated then "`name` NOT LIKE%a%" else "`name` LIKE%a%");
  }
}
