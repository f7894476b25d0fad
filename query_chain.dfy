/**
 * The fluent query objects: Query and its subclasses (FromQuery, the statement nodes,
 * SetQuery, WhereQuery with AndQuery/OrQuery, OrderByQuery, LimitQuery) as one class
 * whose immutable kind says which subclass an object is, the WhereCondition objects the
 * static factories create, and SqlDatabase's walk over a chain (parseQuery/toSql), which
 * reads the nodes and updates the database's translator state.
 */
module QueryChain {
  import opened Wrappers
  import opened JavaText
  import opened JavaTypes
  import opened StringUtil
  import opened Database
  import opened AbstractTable
  import opened SqlTranslator
  import Annotations
  import RowMarshaller

  /** A WhereCondition: its class and operand are fixed, its two flags are mutable. */
  class Condition {
    const kind: ConditionKind
    const value: ObjectValue
    var negated: bool
    var inverted: bool

    constructor (kind: ConditionKind, value: ObjectValue)
      ensures this.kind == kind && this.value == value && !negated && !inverted
    {
      this.kind := kind;
      this.value := value;
      negated := false;
      inverted := false;
    }

    /** The condition as the translator reads it. */
    function View(): Cond
      reads this
    {
      Cond(kind, value, negated, inverted)
    }
  }

  /** Query.eq: an EqualsCondition on the operand. */
  method Eq(o: ObjectValue) returns (c: Condition)
    ensures fresh(c) && c.View() == Cond(Equals, o, false, false)
  {
    c := new Condition(Equals, o);
  }

  /** Query.gt: a GreaterThanCondition, not inverted. */
  method Gt(o: ObjectValue) returns (c: Condition)
    ensures fresh(c) && c.View() == Cond(GreaterThan, o, false, false)
  {
    c := new Condition(GreaterThan, o);
  }

  /** Query.lt: a GreaterThanCondition with the inverted flag set. */
  method Lt(o: ObjectValue) returns (c: Condition)
    ensures fresh(c) && c.View() == Cond(GreaterThan, o, false, true)
  {
    c := new Condition(GreaterThan, o);
    c.inverted := true;
  }

  /** Query.gte: a GreaterThanEqualsCondition, not inverted. */
  method Gte(o: ObjectValue) returns (c: Condition)
    ensures fresh(c) && c.View() == Cond(GreaterThanEquals, o, false, false)
  {
    c := new Condition(GreaterThanEquals, o);
  }

  /** Query.lte: a GreaterThanEqualsCondition with the inverted flag set. */
  method Lte(o: ObjectValue) returns (c: Condition)
    ensures fresh(c) && c.View() == Cond(GreaterThanEquals, o, false, true)
  {
    c := new Condition(GreaterThanEquals, o);
    c.inverted := true;
  }

  /** Query.like: a LikeCondition holding the pattern; it has no operand. */
  method Like(pattern: string) returns (c: Condition)
    ensures fresh(c) && c.View() == Cond(SqlTranslator.Like(pattern), Null, false, false)
  {
    c := new Condition(SqlTranslator.Like(pattern), Null);
  }

  /** Query.not: flips the negated flag of the given condition and returns that same object. */
  method Not(c: Condition) returns (r: Condition)
    modifies c
    ensures r == c && c.negated == !old(c.negated) && c.inverted == old(c.inverted)
  {
    c.negated := !c.negated;
    r := c;
  }

  /** not(not(c)) leaves the condition as it was. */
  method NotNot(c: Condition) returns (r: Condition)
    modifies c
    ensures r == c && c.View() == old(c.View())
  {
    r := Not(c);
    r := Not(r);
  }

  /** Which Query subclass a node is, with the fields its constructor fixes. */
  datatype NodeKind =
    | FromKind
    | SelectKind(columns: Option<seq<Value>>)
    | UpdateKind
    | DeleteKind
    | SetKind(column: string, value: ObjectValue)
    | WhereKind(clause: Clause, column: string, condition: Condition?)
    | OrderByKind(column: string, order: Order)
    | LimitKind(offset: int, rowCount: int)
    | OtherKind(className: ClassName)   // a SubQuery subclass defined elsewhere, not a MasterQuery
  {
    /** SelectQuery, UpdateQuery and DeleteQuery are the MasterQuery subclasses. */
    predicate IsMaster()
    {
      SelectKind? || UpdateKind? || DeleteKind?
    }
  }

  const MasterQueryClass := "de.static_interface.sinksql.database.query.MasterQuery"

  /**
   * A Query object. The root (a FromQuery) has no parent and holds the table; every other
   * node is a SubQuery that reaches the table and the master query through its parent.
   * depth is the length of the parent path, which makes every walk towards the root finite.
   */
  class Query {
    const parent: Query?
    const kind: NodeKind
    ghost const depth: nat
    var child: Query?
    var table: Table?
    var parenState: int
    var columnVerificationDisabled: bool

    /** The parent links lead to a FromQuery, and only the FromQuery has no parent. */
    ghost predicate Linked()
      decreases depth
    {
      (parent == null <==> kind.FromKind?)
      && (parent != null ==> parent.depth < depth && parent.Linked())
    }

    /** The FromQuery at the top of the chain. */
    function Root(): (r: Query)
      requires Linked()
      ensures r.Linked() && r.parent == null && r.kind.FromKind?
      decreases depth
    {
      if parent == null then this else parent.Root()
    }

    /** Query.from / the FromQuery constructor: a root holding the table. */
    constructor From(table: Table?)
      ensures Linked() && parent == null && kind == FromKind && Root() == this
      ensures child == null && this.table == table && parenState == 0 && !columnVerificationDisabled
    {
      parent := null;
      kind := FromKind;
      depth := 0;
      child := null;
      this.table := table;
      parenState := 0;
      columnVerificationDisabled := false;
    }

    /** The SubQuery constructors: a node of the given kind below p, with no table of its own. */
    constructor Sub(p: Query, k: NodeKind)
      requires p.Linked() && !k.FromKind?
      ensures Linked() && parent == p && kind == k && Root() == p.Root()
      ensures child == null && table == null && parenState == 0 && !columnVerificationDisabled
    {
      parent := p;
      kind := k;
      depth := p.depth + 1;
      child := null;
      table := null;
      parenState := 0;
      columnVerificationDisabled := false;
    }

    /** getTable: the root's own field; SubQuery asks its parent. */
    function GetTable(): (t: Table?)
      requires Linked()
      reads Root()
      decreases depth
    {
      if parent == null then table else parent.GetTable()
    }

    /** Every node of a chain reports the table of its FromQuery. */
    lemma {:induction false} GetTableIsRootTable()
      requires Linked()
      ensures GetTable() == Root().table
      decreases depth
    {
      if parent != null {
        parent.GetTableIsRootTable();
      }
    }

    /** setTable: the FromQuery stores the table; a SubQuery passes it up to its parent. */
    method SetTable(t: Table?)
      requires Linked()
      modifies Root()
      ensures Root().table == t
      ensures Root().child == old(Root().child) && Root().parenState == old(Root().parenState)
      ensures Root().columnVerificationDisabled == old(Root().columnVerificationDisabled)
      decreases depth
    {
      if parent == null {
        table := t;
      } else {
        parent.SetTable(t);
      }
    }

    /**
     * getMasterQuery: the FromQuery casts its child to MasterQuery (null passes the cast);
     * a SubQuery asks its parent.
     */
    function MasterQuery(): (m: Result<Query?>)
      requires Linked()
      reads Root()
      decreases depth
    {
      if parent == null then
        if child == null || child.kind.IsMaster() then Ok(child) else Err(ClassCast(MasterQueryClass))
      else parent.MasterQuery()
    }

    /**
     * All nodes of a chain agree on the master query: the FromQuery's current child when it
     * is null or a statement node, and a ClassCastException when it is any other node (an
     * ORDER BY or LIMIT attached to the FromQuery, say).
     */
    lemma {:induction false} MasterQueryIsRootChild()
      requires Linked()
      ensures var c := Root().child;
        (c == null || c.kind.IsMaster() ==> MasterQuery() == Ok(c))
        && (c != null && !c.kind.IsMaster() ==> MasterQuery() == Err(ClassCast(MasterQueryClass)))
      decreases depth
    {
      if parent != null {
        parent.MasterQueryIsRootChild();
      }
    }

    /** getChild. */
    function GetChild(): Query?
      reads this
    {
      child
    }

    /** setChild: overwrites the child link; an earlier child is dropped, never refused. */
    method SetChild(q: Query)
      modifies this
      ensures child == q
      ensures table == old(table) && parenState == old(parenState) && columnVerificationDisabled == old(columnVerificationDisabled)
    {
      child := q;
    }

    /** q was just created below this node with kind k and installed as its child. */
    ghost predicate Installed(q: Query, k: NodeKind)
      reads this, q
    {
      child == q && q.parent == this && q.kind == k && q.Linked()
      && q.child == null && q.table == null && q.parenState == 0 && !q.columnVerificationDisabled
    }

    /** The builders' common step: new node of kind k with this as parent, then setChild. */
    method Attach(k: NodeKind) returns (q: Query)
      requires Linked() && !k.FromKind?
      modifies this
      ensures fresh(q) && Installed(q, k) && q.Root() == Root()
      ensures table == old(table) && parenState == old(parenState) && columnVerificationDisabled == old(columnVerificationDisabled)
    {
      q := new Query.Sub(this, k);
      SetChild(q);
    }

    /** FromQuery.select(columns). */
    method Select(columns: Option<seq<Value>>) returns (q: Query)
      requires Linked() && kind.FromKind?
      modifies this
      ensures fresh(q) && Installed(q, SelectKind(columns)) && q.Root() == this
      ensures table == old(table) && parenState == old(parenState) && columnVerificationDisabled == old(columnVerificationDisabled)
    {
      q := Attach(SelectKind(columns));
    }

    /** FromQuery.select(): the same as select("*"). */
    method SelectAll() returns (q: Query)
      requires Linked() && kind.FromKind?
      modifies this
      ensures fresh(q) && Installed(q, SelectKind(Some([VStr("*")]))) && q.Root() == this
      ensures table == old(table) && parenState == old(parenState) && columnVerificationDisabled == old(columnVerificationDisabled)
    {
      q := Select(Some([VStr("*")]));
    }

    /** FromQuery.update(). */
    method Update() returns (q: Query)
      requires Linked() && kind.FromKind?
      modifies this
      ensures fresh(q) && Installed(q, UpdateKind) && q.Root() == this
      ensures table == old(table) && parenState == old(parenState) && columnVerificationDisabled == old(columnVerificationDisabled)
    {
      q := Attach(UpdateKind);
    }

    /** FromQuery.delete(). */
    method Delete() returns (q: Query)
      requires Linked() && kind.FromKind?
      modifies this
      ensures fresh(q) && Installed(q, DeleteKind) && q.Root() == this
      ensures table == old(table) && parenState == old(parenState) && columnVerificationDisabled == old(columnVerificationDisabled)
    {
      q := Attach(DeleteKind);
    }

    /** set(column, value) on an UPDATE node or on a SetQuery. */
    method Set(column: string, value: ObjectValue) returns (q: Query)
      requires Linked() && (kind.UpdateKind? || kind.SetKind?)
      modifies this
      ensures fresh(q) && Installed(q, SetKind(column, value)) && q.Root() == Root()
      ensures table == old(table) && parenState == old(parenState) && columnVerificationDisabled == old(columnVerificationDisabled)
    {
      q := Attach(SetKind(column, value));
    }

    /** where(column, condition) on a statement node or on a SetQuery. */
    method Where(column: string, condition: Condition?) returns (q: Query)
      requires Linked() && (kind.SelectKind? || kind.UpdateKind? || kind.DeleteKind? || kind.SetKind?)
      modifies this
      ensures fresh(q) && Installed(q, WhereKind(WhereClause, column, condition)) && q.Root() == Root()
      ensures table == old(table) && parenState == old(parenState) && columnVerificationDisabled == old(columnVerificationDisabled)
    {
      q := Attach(WhereKind(WhereClause, column, condition));
    }

    /** WhereQuery.and: an AndQuery whose parent is this WHERE, AND or OR node. */
    method And(column: string, condition: Condition?) returns (q: Query)
      requires Linked() && kind.WhereKind?
      modifies this
      ensures fresh(q) && Installed(q, WhereKind(AndClause, column, condition)) && q.Root() == Root()
      ensures table == old(table) && parenState == old(parenState) && columnVerificationDisabled == old(columnVerificationDisabled)
    {
      q := Attach(WhereKind(AndClause, column, condition));
    }

    /** WhereQuery.or: an OrQuery whose parent is this WHERE, AND or OR node. */
    method Or(column: string, condition: Condition?) returns (q: Query)
      requires Linked() && kind.WhereKind?
      modifies this
      ensures fresh(q) && Installed(q, WhereKind(OrClause, column, condition)) && q.Root() == Root()
      ensures table == old(table) && parenState == old(parenState) && columnVerificationDisabled == old(columnVerificationDisabled)
    {
      q := Attach(WhereKind(OrClause, column, condition));
    }

    /** Query.orderBy, available on every node. */
    method OrderBy(column: string, order: Order) returns (q: Query)
      requires Linked()
      modifies this
      ensures fresh(q) && Installed(q, OrderByKind(column, order)) && q.Root() == Root()
      ensures table == old(table) && parenState == old(parenState) && columnVerificationDisabled == old(columnVerificationDisabled)
    {
      q := Attach(OrderByKind(column, order));
    }

    /** Query.limit(offset, rowCount), available on every node. */
    method Limit(offset: int, rowCount: int) returns (q: Query)
      requires Linked()
      modifies this
      ensures fresh(q) && Installed(q, LimitKind(offset, rowCount)) && q.Root() == Root()
      ensures table == old(table) && parenState == old(parenState) && columnVerificationDisabled == old(columnVerificationDisabled)
    {
      q := Attach(LimitKind(offset, rowCount));
    }

    /** Query.limit(rowCount): the same as limit(0, rowCount). */
    method LimitRows(rowCount: int) returns (q: Query)
      requires Linked()
      modifies this
      ensures fresh(q) && Installed(q, LimitKind(0, rowCount)) && q.Root() == Root()
      ensures table == old(table) && parenState == old(parenState) && columnVerificationDisabled == old(columnVerificationDisabled)
    {
      q := Limit(0, rowCount);
    }

    /** WhereQuery.openParanthesis: state 1, returning this node. */
    method OpenParenthesis() returns (r: Query)
      requires kind.WhereKind?
      modifies this
      ensures r == this && parenState == 1
      ensures child == old(child) && table == old(table) && columnVerificationDisabled == old(columnVerificationDisabled)
    {
      parenState := 1;
      r := this;
    }

    /** WhereQuery.closeParanthesis: state 2, returning this node. */
    method CloseParenthesis() returns (r: Query)
      requires kind.WhereKind?
      modifies this
      ensures r == this && parenState == 2
      ensures child == old(child) && table == old(table) && columnVerificationDisabled == old(columnVerificationDisabled)
    {
      parenState := 2;
      r := this;
    }

    /** WhereQuery.resetParanthesisState: back to 0. */
    method ResetParenthesisState()
      requires kind.WhereKind?
      modifies this
      ensures parenState == 0
      ensures child == old(child) && table == old(table) && columnVerificationDisabled == old(columnVerificationDisabled)
    {
      parenState := 0;
    }

    /** disableColumnVerification: sets the flag, which nothing clears, and returns this node. */
    method DisableColumnVerification() returns (r: Query)
      modifies this
      ensures r == this && columnVerificationDisabled
      ensures child == old(child) && table == old(table) && parenState == old(parenState)
    {
      columnVerificationDisabled := true;
      r := this;
    }

    /** The objects the translator reads from this node: the node and its condition. */
    function Footprint(): set<object>
    {
      if kind.WhereKind? && kind.condition != null then {this, kind.condition} else {this}
    }

    /** The node as the translator reads it; a null condition stays null. */
    function View(): Node
      reads Footprint()
    {
      match kind
      case FromKind => FromNode
      case SelectKind(columns) => SelectNode(columns)
      case UpdateKind => UpdateNode
      case DeleteKind => DeleteNode
      case SetKind(column, value) => SetNode(column, value)
      case WhereKind(clause, column, condition) =>
        WhereNode(clause, column, if condition == null then None else Some(condition.View()), parenState)
      case OrderByKind(column, order) => OrderByNode(column, order)
      case LimitKind(offset, rowCount) => LimitNode(offset, rowCount)
      case OtherKind(className) => OtherNode(className)
    }
  }

  /** Each node of path is linked to a FromQuery, and each is the parent of the next one. */
  ghost predicate ParentLinked(path: seq<Query>)
  {
    (forall i :: 0 <= i < |path| ==> path[i].Linked())
    && (forall i :: 0 <= i < |path| - 1 ==> path[i + 1].parent == path[i])
  }

  /**
   * path lists the chain that starts at start and follows the child links to the end: each
   * node's child is the next one, whose parent it is, and the last node has no child.
   */
  ghost predicate IsChain(start: Query?, path: seq<Query>)
    reads path
  {
    (start == null <==> path == [])
    && (path != [] ==> path[0] == start && path[|path| - 1].child == null)
    && ParentLinked(path)
    && (forall i :: 0 <= i < |path| - 1 ==> path[i].child == path[i + 1])
  }

  /** Everything the translator reads from the nodes of a path. */
  function PathFootprint(path: seq<Query>): set<object>
  {
    if path == [] then {} else path[0].Footprint() + PathFootprint(path[1..])
  }

  /** The translator reads query nodes and conditions, never a database. */
  lemma {:induction false} FootprintHasNoDatabase(path: seq<Query>, db: SqlDatabase)
    ensures db !in PathFootprint(path)
  {
    if path != [] {
      FootprintHasNoDatabase(path[1..], db);
    }
  }

  /** The j-th node of a path reads as the j-th view. */
  lemma {:induction false} ViewsAt(path: seq<Query>, j: int)
    requires 0 <= j < |path|
    ensures Views(path)[j] == path[j].View()
  {
    if j > 0 {
      ViewsAt(path[1..], j - 1);
    }
  }

  /** The nodes read the same as long as nothing they are made of changes. */
  twostate lemma {:induction false} ViewsFramed(path: seq<Query>)
    requires forall i :: 0 <= i < |path| ==> unchanged(path[i])
    requires forall i :: 0 <= i < |path| && path[i].kind.WhereKind? && path[i].kind.condition != null ==> unchanged(path[i].kind.condition)
    ensures Views(path) == old(Views(path))
  {
    if path != [] {
      ViewsFramed(path[1..]);
    }
  }

  /** The nodes of a two-query path. */
  lemma ViewsPair(a: Query, b: Query)
    ensures Views([a, b]) == [a.View(), b.View()]
  {
    assert [a, b][1..] == [b];
    assert [b][1..] == [];
  }

  /** The nodes of a path as the translator reads them. */
  function Views(path: seq<Query>): (r: seq<Node>)
    reads PathFootprint(path)
    ensures |r| == |path|
  {
    if path == [] then [] else [path[0].View()] + Views(path[1..])
  }

  /** Every node of a chain has the root of the first node. */
  lemma {:induction false} ChainSharesRoot(path: seq<Query>, i: int)
    requires |path| > 0 && ParentLinked(path)
    requires 0 <= i < |path|
    ensures path[i].Root() == path[0].Root()
  {
    if i > 0 {
      ChainSharesRoot(path, i - 1);
      assert path[i].parent == path[i - 1];
    }
  }

  /** What toSqlValue and the identifier quoting use: the table's converters, db's backtick. */
  function RendererOf(table: Table, db: SqlDatabase): Renderer
    reads table.registry
  {
    Renderer(table.registry.hierarchy, table.registry.providers, table.registry.convert, table.db.dialect.className, db.dialect.backtick)
  }

  /**
   * SqlDatabase.toSql for one node: the fragment Fragment describes, with the statement
   * kind and the SET flag of db updated as Fragment says.
   */
  method NodeToSql(db: SqlDatabase, table: Table, q: Query) returns (r: Result<string>)
    requires q.Linked() && q.GetTable() == table
    modifies db
    ensures Step(r, db.queryType, db.firstSetCall) == Fragment(RendererOf(table, db), old(q.View()), old(db.queryType), old(db.firstSetCall))
  {
    var bt := db.Backtick();
    var rd := RendererOf(table, db);
    match q.kind
    case FromKind =>
      return Ok("");
    case SelectKind(columns) =>
      db.queryType := SelectQuery;
      var cols := FormatArray(columns, Some(","));
      if cols.Err? {
        return Err(cols.error);
      }
      return Ok("SELECT " + cols.value + " FROM " + Quoted(bt, TablePlaceholder) + " ");
    case UpdateKind =>
      db.queryType := UpdateQuery;
      return Ok("UPDATE " + Quoted(bt, TablePlaceholder) + " ");
    case DeleteKind =>
      db.queryType := DeleteQuery;
      return Ok("DELETE FROM " + Quoted(bt, TablePlaceholder) + " ");
    case SetKind(column, value) =>
      if db.queryType != UpdateQuery {
        return Err(IllegalState("Can only use SET statements on UPDATE queries!"));
      }
      var v := q.GetTable().ToSqlValue(value, false);
      if v.Err? {
        return Err(v.error);
      }
      var statement := Quoted(bt, column) + "=" + OrNull(v.value) + " ";
      if !db.firstSetCall {
        statement := ", " + statement;
      } else {
        statement := "SET " + statement;
        db.firstSetCall := false;
      }
      return Ok(statement);
    case WhereKind(clause, column, condition) =>
      var w := WhereStatement(rd, column, if condition == null then None else Some(condition.View()), q.parenState);
      if w.Err? {
        return Err(w.error);
      }
      return Ok(ClauseKeyword(clause) + w.value + " ");
    case OrderByKind(column, order) =>
      return Ok("ORDER BY " + Quoted(bt, column) + " " + ToUpper(OrderName(order)) + " ");
    case LimitKind(offset, rowCount) =>
      return Ok("LIMIT " + IntToString(offset) + "," + IntToString(rowCount) + " ");
    case OtherKind(className) =>
      return Err(IllegalState("Query not supported: " + className));
  }

  /**
   * SqlDatabase.parseQuery over a chain whose nodes all report the given table: the text
   * and the translator state are those of Parse over the chain's nodes.
   */
  method ParseQuery(db: SqlDatabase, table: Table, start: Query?, ghost path: seq<Query>, ghost root: Query) returns (r: Result<string>)
    requires IsChain(start, path)
    requires start != null ==> start.Root() == root && root.table == table
    modifies db
    ensures Step(r, db.queryType, db.firstSetCall) == Parse(RendererOf(table, db), Views(path), old(db.queryType), old(db.firstSetCall))
  {
    ghost var rd := RendererOf(table, db);
    ghost var nodes := Views(path);
    var sql := "";
    var q := start;
    ghost var i := 0;
    while q != null
      invariant 0 <= i <= |path|
      invariant IsChain(start, path)
      invariant start != null ==> start.Root() == root && root.table == table
      invariant q == (if i < |path| then path[i] else null)
      invariant rd == RendererOf(table, db)
      invariant Walk(rd, nodes, old(db.queryType), old(db.firstSetCall), "") == Walk(rd, nodes[i..], db.queryType, db.firstSetCall, sql)
      decreases |path| - i
    {
      assert nodes[i] == q.View() by {
        ViewsFramed(path);
        ViewsAt(path, i);
      }
      assert q.GetTable() == table by {
        ChainSharesRoot(path, i);
        q.GetTableIsRootTable();
      }
      ghost var queryType, firstSetCall := db.queryType, db.firstSetCall;
      var s := NodeToSql(db, table, q);
      assert Fragment(rd, nodes[i], queryType, firstSetCall) == Step(s, db.queryType, db.firstSetCall);
      WalkAdvance(rd, nodes, i, queryType, firstSetCall, sql, Step(s, db.queryType, db.firstSetCall));
      if s.Err? {
        ViewsFramed(path);
        return s;
      }
      sql := sql + s.value;
      q := q.child;
      i := i + 1;
    }
    assert nodes[i..] == [];
    db.queryType := NoQuery;
    db.firstSetCall := true;
    ViewsFramed(path);
    return Ok(Trim(sql));
  }

  /** The database of a chain's table, if it has a table. */
  function ChainDatabase(root: Query): set<object>
    reads root
  {
    if root.table == null then {} else {root.table.db}
  }

  /** The table of a chain's FromQuery and that table's database, if it has a table. */
  function TableObjects(root: Query): set<object>
    reads root
  {
    if root.table == null then {} else {root.table, root.table.db}
  }

  /**
   * Why getMasterQuery().getTable() fails for a chain with this FromQuery, if it does: the
   * cast of the child to MasterQuery comes first, then the null master query or the null
   * table is dereferenced.
   */
  function ChainFailure(root: Query): (e: Option<Exception>)
    reads root
  {
    if root.child != null && !root.child.kind.IsMaster() then Some(ClassCast(MasterQueryClass))
    else if root.child == null || root.table == null then Some(NullPointer)
    else None
  }

  /**
   * Query.toSql on any node q of a chain: parseQuery of the table's database, started at
   * the master query (the FromQuery's child, not the FromQuery). chain lists the whole
   * chain from its FromQuery. A missing master query or table is dereferenced.
   */
  method ToSql(q: Query, ghost chain: seq<Query>) returns (r: Result<string>)
    requires q.Linked() && IsChain(q.Root(), chain)
    modifies ChainDatabase(chain[0])
    ensures chain[0].child == null ==> r == Err(NullPointer)
    ensures chain[0].child != null && !chain[0].child.kind.IsMaster() ==> r == Err(ClassCast(MasterQueryClass))
    ensures chain[0].child != null && chain[0].child.kind.IsMaster() && chain[0].table == null ==> r == Err(NullPointer)
    ensures ChainFailure(chain[0]).Some? ==> unchanged(ChainDatabase(chain[0]))
    ensures ChainFailure(chain[0]).None? ==>
      var db := chain[0].table.db;
      Step(r, db.queryType, db.firstSetCall) == Parse(RendererOf(chain[0].table, db), Views(chain[1..]), old(db.queryType), old(db.firstSetCall))
  {
    ghost var root := chain[0];
    q.MasterQueryIsRootChild();
    var cast := q.MasterQuery();
    if cast.Err? {
      return Err(cast.error);
    }
    var master := cast.value;
    if master == null {
      return Err(NullPointer);
    }
    assert |chain| > 1 && master == chain[1];
    ChainSharesRoot(chain, 1);
    master.GetTableIsRootTable();
    var table := master.GetTable();
    if table == null {
      return Err(NullPointer);
    }
    assert IsChain(master, chain[1..]);
    r := ParseQuery(table.db, table, master, chain[1..], root);
  }

  /** getMasterQuery().getTable(), as execute and getResults evaluate it before translating. */
  method MasterTable(q: Query, ghost chain: seq<Query>) returns (r: Result<Table>)
    requires q.Linked() && IsChain(q.Root(), chain)
    ensures ChainFailure(chain[0]).Some? ==> r == Err(ChainFailure(chain[0]).value)
    ensures ChainFailure(chain[0]).None? ==> r == Ok(chain[0].table)
  {
    q.MasterQueryIsRootChild();
    var cast := q.MasterQuery();
    if cast.Err? {
      return Err(cast.error);
    }
    var master := cast.value;
    if master == null {
      return Err(NullPointer);
    }
    assert |chain| > 1 && master == chain[1];
    ChainSharesRoot(chain, 1);
    master.GetTableIsRootTable();
    var table := master.GetTable();
    if table == null {
      return Err(NullPointer);
    }
    return Ok(table);
  }

  /**
   * Query.execute: the master query's table runs the translated statement as an update,
   * with executeUpdate's one reconnect attempt. The table is looked up before translating.
   */
  method Execute(q: Query, ghost chain: seq<Query>, first: ExecOutcome, retry: ExecOutcome) returns (r: Result<()>)
    requires q.Linked() && IsChain(q.Root(), chain)
    modifies TableObjects(chain[0])
    ensures ChainFailure(chain[0]).Some? ==> r == Err(ChainFailure(chain[0]).value) && unchanged(TableObjects(chain[0]))
    ensures ChainFailure(chain[0]).None? ==>
      var t := chain[0].table;
      var p := Parse(RendererOf(t, t.db), Views(chain[1..]), old(t.db.queryType), old(t.db.firstSetCall));
      var sql := p.out;
      (t.db.queryType, t.db.firstSetCall) == (p.queryType, p.firstSetCall)
      &&
      (sql.Err? ==> r == Err(sql.error) && t.reconnected == old(t.reconnected))
      && (sql.Ok? ==> (r, t.reconnected) == (UpdateRun(old(t.reconnected), first, retry).0, UpdateRun(old(t.reconnected), first, retry).1))
  {
    var mt := MasterTable(q, chain);
    if mt.Err? {
      return Err(mt.error);
    }
    var table := mt.value;
    var sql := ToSql(q, chain);
    ViewsFramed(chain[1..]);
    if sql.Err? {
      return Err(sql.error);
    }
    var attempts;
    r, attempts := table.ExecuteUpdate(first, retry);
    ViewsFramed(chain[1..]);
  }

  /**
   * Query.getResults: the master query's table runs the translated statement as a query
   * and turns every result row into a row object.
   */
  method GetResults(q: Query, ghost chain: seq<Query>, fields: seq<Annotations.Field>, first: ExecOutcome, retry: ExecOutcome)
    returns (r: Result<seq<RowMarshaller.RowInstance>>)
    requires q.Linked() && IsChain(q.Root(), chain)
    modifies TableObjects(chain[0])
    ensures ChainFailure(chain[0]).Some? ==> r == Err(ChainFailure(chain[0]).value) && unchanged(TableObjects(chain[0]))
    ensures ChainFailure(chain[0]).None? ==>
      var t := chain[0].table;
      var p := Parse(RendererOf(t, t.db), Views(chain[1..]), old(t.db.queryType), old(t.db.firstSetCall));
      var sql := p.out;
      (t.db.queryType, t.db.firstSetCall) == (p.queryType, p.firstSetCall)
      &&
      var run := QueryRun(old(t.reconnected), first, retry);
      (sql.Err? ==> r == Err(sql.error) && t.reconnected == old(t.reconnected))
      && (sql.Ok? ==> t.reconnected == run.1)
      && (sql.Ok? && run.0.Err? ==> r == Err(run.0.error))
      && (sql.Ok? && run.0.Ok? ==> RowMarshaller.RowsRead(r, t.registry.hierarchy, t.rowClass, fields, run.0.value))
  {
    var mt := MasterTable(q, chain);
    if mt.Err? {
      return Err(mt.error);
    }
    var table := mt.value;
    var sql := ToSql(q, chain);
    ViewsFramed(chain[1..]);
    if sql.Err? {
      return Err(sql.error);
    }
    r := RowMarshaller.Get(table, fields, first, retry);
    ViewsFramed(chain[1..]);
  }

  /** Query.get: the first result row, or null when there is none. */
  method Get(q: Query, ghost chain: seq<Query>, fields: seq<Annotations.Field>, first: ExecOutcome, retry: ExecOutcome)
    returns (r: Result<Option<RowMarshaller.RowInstance>>)
    requires q.Linked() && IsChain(q.Root(), chain)
    modifies TableObjects(chain[0])
    ensures ChainFailure(chain[0]).Some? ==> r == Err(ChainFailure(chain[0]).value) && unchanged(TableObjects(chain[0]))
    ensures ChainFailure(chain[0]).None? ==>
      var t := chain[0].table;
      var p := Parse(RendererOf(t, t.db), Views(chain[1..]), old(t.db.queryType), old(t.db.firstSetCall));
      var sql := p.out;
      (t.db.queryType, t.db.firstSetCall) == (p.queryType, p.firstSetCall)
      &&
      var run := QueryRun(old(t.reconnected), first, retry);
      var read := if sql.Ok? && run.0.Ok? then RowMarshaller.Deserialize(t.registry.hierarchy, t.rowClass, fields, run.0.value) else Ok([]);
      (sql.Err? ==> r == Err(sql.error) && t.reconnected == old(t.reconnected))
      && (sql.Ok? ==> t.reconnected == run.1)
      && (sql.Ok? && run.0.Err? ==> r == Err(run.0.error))
      && (sql.Ok? && run.0.Ok? && read.Err? ==> r == Err(read.error))
      && (r.Ok? ==> sql.Ok? && run.0.Ok? && read.Ok? && (r.value.None? <==> run.0.value == []))
      && (r.Ok? && r.value.Some? ==> r.value.value.values == read.value[0])
  {
    var results := GetResults(q, chain, fields, first, retry);
    if results.Err? {
      return Err(results.error);
    }
    if |results.value| < 1 {
      return Ok(None);
    }
    return Ok(Some(results.value[0]));
  }

  /**
   * The lookup of IdRowWrapper, from(table).select().where(idColumn, eq("?")), on a MySQL
   * table whose database has no statement in progress.
   */
  method IdLookup(t: Table) returns (sql: Result<string>)
    requires t.db.dialect.backtick == '`' && t.db.queryType == NoQuery && t.db.firstSetCall
    modifies t, t.db
    ensures sql == Ok("SELECT * FROM `{TABLE}` WHERE `id` = ?")
  {
    var from := new Query.From(t);
    var select := from.SelectAll();
    var cond := Eq(VStr("?"));
    var where := select.Where("id", cond);
    assert IsChain(from, [from, select, where]);
    sql := ToSql(where, [from, select, where]);
    assert [from, select, where][1..] == [select, where];
    ViewsPair(select, where);
    assert Views([select, where]) == [SelectNode(Some([VStr("*")])), WhereNode(WhereClause, "id", Some(Cond(Equals, VStr("?"), false, false)), 0)];
    SelectWhereExample(RendererOf(t, t.db));
  }
}
