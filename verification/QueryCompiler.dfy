/**
 * Whole queries (packages/core/src/query/encodeQuery.ts): join resolution,
 * the assembled statement, what SQLite answers to it, and that the answer is
 * the query's meaning.
 */
module QueryCompiler {
  import opened RawRecords
  import opened MemoryStores
  import opened QueryTrees
  import opened SqlEncoding

  datatype Info = BelongsTo(key: string) | HasMany(foreignKey: string)
  datatype Association = Association(from: string, to: string, info: Info)
  datatype NestedJoin = NestedJoin(from: string, to: string)
  datatype SortBy = SortBy(column: string, descending: bool)

  datatype Description = Description(
    where: seq<Where>,
    joinTables: seq<string>,
    nested: seq<NestedJoin>,
    sortBy: seq<SortBy>,
    take: Option<nat>,
    skip: Option<nat>
  )

  datatype Query = Query(table: string, description: Description, associations: seq<Association>)

  /** left join "to" on ... */
  datatype JoinClause = JoinClause(to: string, on: Expr)

  /** A statement: select or count, its joins, its conditions joined by and, and what is bound. */
  datatype Compiled = Compiled(
    counting: bool,
    distinct: bool,
    table: string,
    joins: seq<JoinClause>,
    where: seq<Expr>,
    sortBy: seq<SortBy>,
    limit: bool,
    offset: bool,
    args: seq<Sql>
  )

  // ----- joins -----

  function FindAssociation(associations: seq<Association>, from: string, to: string): Option<Association> {
    if |associations| == 0 then None
    else if associations[0].from == from && associations[0].to == to then Some(associations[0])
    else FindAssociation(associations[1..], from, to)
  }

  /** The joins of a query in order; None is a throw. */
  function DirectJoins(q: Query, tables: seq<string>): Option<seq<Association>> {
    if |tables| == 0 then Some([])
    else match DirectJoins(q, tables[..|tables| - 1])
      case None => None
      case Some(before) =>
        match FindAssociation(q.associations, q.table, tables[|tables| - 1])
        case None => None
        case Some(a) => Some(before + [a])
  }

  function Targets(joins: seq<Association>): set<string> {
    set a | a in joins :: a.to
  }

  function NestedJoins(q: Query, before: seq<Association>, nested: seq<NestedJoin>): Option<seq<Association>> {
    if |nested| == 0 then Some(before)
    else match NestedJoins(q, before, nested[..|nested| - 1])
      case None => None
      case Some(joins) =>
        var last := nested[|nested| - 1];
        if last.from != q.table && last.from !in Targets(joins) then None
        else match FindAssociation(q.associations, last.from, last.to)
          case None => None
          case Some(a) => Some(joins + [a])
  }

  function Joins(q: Query): Option<seq<Association>> {
    match DirectJoins(q, q.description.joinTables)
    case None => None
    case Some(direct) => NestedJoins(q, direct, q.description.nested)
  }

  lemma {:induction false} DirectJoinsFailEarly(q: Query, tables: seq<string>, n: nat)
    requires n <= |tables| && DirectJoins(q, tables[..n]).None?
    ensures DirectJoins(q, tables).None?
    decreases |tables|
  {
    if n < |tables| {
      assert tables[..|tables| - 1][..n] == tables[..n];
      DirectJoinsFailEarly(q, tables[..|tables| - 1], n);
    } else {
      assert tables[..n] == tables;
    }
  }

  lemma {:induction false} NestedJoinsFailEarly(q: Query, before: seq<Association>, nested: seq<NestedJoin>, n: nat)
    requires n <= |nested| && NestedJoins(q, before, nested[..n]).None?
    ensures NestedJoins(q, before, nested).None?
    decreases |nested|
  {
    if n < |nested| {
      assert nested[..|nested| - 1][..n] == nested[..n];
      NestedJoinsFailEarly(q, before, nested[..|nested| - 1], n);
    } else {
      assert nested[..n] == nested;
    }
  }

  /** The first declared association between two tables. */
  ghost predicate FirstDeclared(associations: seq<Association>, from: string, to: string, a: Association) {
    exists i :: 0 <= i < |associations| && associations[i] == a && a.from == from && a.to == to
                && forall j :: 0 <= j < i ==> !(associations[j].from == from && associations[j].to == to)
  }

  /** One join for each table asked for, in order, under its declared association; a nested one from a table already joined. */
  ghost predicate ResolveTo(q: Query, joins: seq<Association>) {
    var direct := |q.description.joinTables|;
    && |joins| == direct + |q.description.nested|
    && (forall i :: 0 <= i < direct ==> FirstDeclared(q.associations, q.table, q.description.joinTables[i], joins[i]))
    && (forall i :: 0 <= i < |q.description.nested| ==>
          NestedAt(q, q.description.nested[i], joins, direct + i))
  }

  ghost predicate NestedAt(q: Query, nested: NestedJoin, joins: seq<Association>, at: nat)
    requires at < |joins|
  {
    && (nested.from == q.table || nested.from in Targets(joins[..at]))
    && FirstDeclared(q.associations, nested.from, nested.to, joins[at])
  }

  lemma NestedAtPrefix(q: Query, nested: NestedJoin, joins: seq<Association>, m: nat, at: nat)
    requires at < m <= |joins|
    ensures NestedAt(q, nested, joins[..m], at) <==> NestedAt(q, nested, joins, at)
  {
    hide FirstDeclared, Targets;
    assert joins[..m][..at] == joins[..at];
  }

  lemma {:induction false} FindIsFirst(associations: seq<Association>, from: string, to: string, a: Association)
    ensures FindAssociation(associations, from, to) == Some(a) <==> FirstDeclared(associations, from, to, a)
  {
    if |associations| > 0 {
      var rest := associations[1..];
      FindIsFirst(rest, from, to, a);
      if FirstDeclared(rest, from, to, a) && !(associations[0].from == from && associations[0].to == to) {
        var i :| 0 <= i < |rest| && rest[i] == a && a.from == from && a.to == to
                 && forall j :: 0 <= j < i ==> !(rest[j].from == from && rest[j].to == to);
        assert associations[i + 1] == a;
        forall j | 0 <= j < i + 1 ensures !(associations[j].from == from && associations[j].to == to) {
          if j > 0 { assert associations[j] == rest[j - 1]; }
        }
      }
      if FirstDeclared(associations, from, to, a) && !(associations[0].from == from && associations[0].to == to) {
        var i :| 0 <= i < |associations| && associations[i] == a && a.from == from && a.to == to
                 && forall j :: 0 <= j < i ==> !(associations[j].from == from && associations[j].to == to);
        assert rest[i - 1] == a;
        forall j | 0 <= j < i - 1 ensures !(rest[j].from == from && rest[j].to == to) {
          assert rest[j] == associations[j + 1];
        }
      }
    }
  }

  lemma {:induction false} DirectJoinsIff(q: Query, tables: seq<string>, joins: seq<Association>)
    ensures DirectJoins(q, tables) == Some(joins) <==>
            |joins| == |tables| && forall i :: 0 <= i < |tables| ==> FirstDeclared(q.associations, q.table, tables[i], joins[i])
    decreases |tables|
  {
    hide FirstDeclared, FindAssociation;
    if |tables| > 0 {
      var n := |tables| - 1;
      if |joins| == |tables| {
        DirectJoinsIff(q, tables[..n], joins[..n]);
        FindIsFirst(q.associations, q.table, tables[n], joins[n]);
        assert joins == joins[..n] + [joins[n]];
      }
      if DirectJoins(q, tables) == Some(joins) {
        DirectJoinsIff(q, tables[..n], DirectJoins(q, tables[..n]).value);
      }
    }
  }

  lemma {:induction false} NestedJoinsIff(q: Query, before: seq<Association>, nested: seq<NestedJoin>, joins: seq<Association>)
    ensures NestedJoins(q, before, nested) == Some(joins) <==>
            && |joins| == |before| + |nested| && before <= joins
            && forall i :: 0 <= i < |nested| ==> NestedAt(q, nested[i], joins, |before| + i)
    decreases |nested|
  {
    hide FirstDeclared, FindAssociation, Targets, NestedAt;
    if |nested| > 0 {
      var n, m := |nested| - 1, |before| + |nested| - 1;
      if NestedJoins(q, before, nested) == Some(joins) {
        NestedJoinsIff(q, before, nested[..n], NestedJoins(q, before, nested[..n]).value);
      }
      if |joins| == |before| + |nested| {
        assert joins == joins[..m] + [joins[m]];
        NestedJoinsIff(q, before, nested[..n], joins[..m]);
        NestedLast(q, nested[n], joins);
        forall i | 0 <= i < n ensures NestedAt(q, nested[i], joins[..m], |before| + i) <==> NestedAt(q, nested[i], joins, |before| + i) {
          NestedAtPrefix(q, nested[i], joins, m, |before| + i);
        }
        assert before <= joins <==> before <= joins[..m];
        assert NestedJoins(q, before, nested[..n]) == Some(joins[..m]) <==>
               before <= joins && forall i :: 0 <= i < n ==> NestedAt(q, nested[i], joins, |before| + i);
      }
    } else if |joins| == |before| {
      assert before <= joins ==> before == joins;
    }
  }

  lemma NestedLast(q: Query, nested: NestedJoin, joins: seq<Association>)
    requires |joins| > 0
    ensures var m := |joins| - 1;
            NestedAt(q, nested, joins, m) <==>
            (nested.from == q.table || nested.from in Targets(joins[..m]))
            && FindAssociation(q.associations, nested.from, nested.to) == Some(joins[m])
  {
    FindIsFirst(q.associations, nested.from, nested.to, joins[|joins| - 1]);
  }

  lemma JoinsIff(q: Query, joins: seq<Association>)
    ensures Joins(q) == Some(joins) <==> ResolveTo(q, joins)
  {
    hide FirstDeclared, Targets, DirectJoins, NestedJoins, NestedAt;
    var d := |q.description.joinTables|;
    if d <= |joins| { DirectJoinsIff(q, q.description.joinTables, joins[..d]); }
    if DirectJoins(q, q.description.joinTables).Some? {
      var direct := DirectJoins(q, q.description.joinTables).value;
      DirectJoinsIff(q, q.description.joinTables, direct);
      NestedJoinsIff(q, direct, q.description.nested, joins);
      if ResolveTo(q, joins) { assert direct == joins[..d]; }
    }
  }

  lemma JoinsDecide(q: Query)
    ensures forall joins :: Joins(q) == Some(joins) <==> ResolveTo(q, joins)
  {
    hide Joins, ResolveTo;
    forall joins ensures Joins(q) == Some(joins) <==> ResolveTo(q, joins) {
      JoinsIff(q, joins);
    }
  }

  method ResolveJoins(q: Query) returns (joins: Option<seq<Association>>, joined: set<string>)
    ensures joins == Joins(q)
    ensures joins.Some? ==> joined == Targets(joins.value)
    ensures if joins.Some? then ResolveTo(q, joins.value) else forall js :: !ResolveTo(q, js)
  {
    JoinsDecide(q);
    hide ResolveTo;
    var used: seq<Association> := [];
    joined := {};
    var i := 0;
    while i < |q.description.joinTables|
      invariant 0 <= i <= |q.description.joinTables|
      invariant DirectJoins(q, q.description.joinTables[..i]) == Some(used) && joined == Targets(used)
    {
      var to := q.description.joinTables[i];
      assert q.description.joinTables[..i + 1][..i] == q.description.joinTables[..i];
      var a := FindAssociation(q.associations, q.table, to);
      if a.None? {
        DirectJoinsFailEarly(q, q.description.joinTables, i + 1);
        return None, joined;
      }
      FoundTarget(q.associations, q.table, to);
      TargetsMore(used, a.value);
      used := used + [a.value];
      joined := joined + {to};
      i := i + 1;
    }
    assert q.description.joinTables[..i] == q.description.joinTables;
    var direct := used;
    i := 0;
    while i < |q.description.nested|
      invariant 0 <= i <= |q.description.nested|
      invariant NestedJoins(q, direct, q.description.nested[..i]) == Some(used) && joined == Targets(used)
    {
      var nested := q.description.nested[i];
      assert q.description.nested[..i + 1][..i] == q.description.nested[..i];
      if nested.from != q.table && nested.from !in joined {
        NestedJoinsFailEarly(q, direct, q.description.nested, i + 1);
        return None, joined;
      }
      var a := FindAssociation(q.associations, nested.from, nested.to);
      if a.None? {
        NestedJoinsFailEarly(q, direct, q.description.nested, i + 1);
        return None, joined;
      }
      FoundTarget(q.associations, nested.from, nested.to);
      TargetsMore(used, a.value);
      used := used + [a.value];
      joined := joined + {nested.to};
      i := i + 1;
    }
    assert q.description.nested[..i] == q.description.nested;
    joins := Some(used);
  }

  lemma {:induction false} FoundTarget(associations: seq<Association>, from: string, to: string)
    ensures var a := FindAssociation(associations, from, to);
            a.Some? ==> a.value.from == from && a.value.to == to
  {
    if |associations| > 0 { FoundTarget(associations[1..], from, to); }
  }

  lemma TargetsMore(joins: seq<Association>, a: Association)
    ensures Targets(joins + [a]) == Targets(joins) + {a.to}
  {
    assert a in joins + [a];
    forall t | t in Targets(joins) ensures t in Targets(joins + [a]) {
      var b :| b in joins && b.to == t;
      assert b in joins + [a];
    }
  }

  // ----- the statement -----

  function AllConditions(clauses: seq<Where>, table: string): seq<Expr> {
    if |clauses| == 0 then [] else AllConditions(clauses[..|clauses| - 1], table) + [Encoded(clauses[|clauses| - 1], table)]
  }

  function ConditionArgs(clauses: seq<Where>): seq<Sql> {
    if |clauses| == 0 then [] else ConditionArgs(clauses[..|clauses| - 1]) + Args(clauses[|clauses| - 1])
  }

  predicate ConditionsDeclared(clauses: seq<Where>, joined: set<string>) {
    forall c :: c in clauses ==> Declared(c, joined)
  }

  function LiveMain(table: string): Expr {
    Relate(IsNot, ColumnRef(table, "_status"), Literal(Text("deleted")))
  }

  function EncodeJoin(a: Association, filterDeleted: bool): JoinClause {
    var joinKey := match a.info
      case BelongsTo(key) => Relate(Equals, ColumnRef(a.to, "id"), ColumnRef(a.from, key))
      case HasMany(foreignKey) => Relate(Equals, ColumnRef(a.to, foreignKey), ColumnRef(a.from, "id"));
    JoinClause(a.to, AndExpr([joinKey] + if filterDeleted then [LiveMain(a.to)] else []))
  }

  function EncodeJoins(joins: seq<Association>, filterDeleted: bool): (clauses: seq<JoinClause>)
    ensures |clauses| == |joins|
  {
    if |joins| == 0 then [] else EncodeJoins(joins[..|joins| - 1], filterDeleted) + [EncodeJoin(joins[|joins| - 1], filterDeleted)]
  }

  predicate HasToMany(joins: seq<Association>) {
    exists a :: a in joins && a.info.HasMany?
  }

  function LimitArgs(d: Description): seq<Sql> {
    if d.take.None? then []
    else [Number(d.take.value as real)] + if d.skip.None? then [] else [Number(d.skip.value as real)]
  }

  function Compilation(q: Query, counting: bool, filterDeleted: bool): Option<Compiled> {
    var d := q.description;
    if counting && (d.take.Some? || d.skip.Some?) then None
    else match Joins(q)
      case None => None
      case Some(joins) =>
        if !ConditionsDeclared(d.where, Targets(joins)) then None
        else Some(Compiled(counting, HasToMany(joins), q.table, EncodeJoins(joins, filterDeleted),
                           AllConditions(d.where, q.table) + (if filterDeleted then [LiveMain(q.table)] else []),
                           d.sortBy, d.take.Some?, d.take.Some? && d.skip.Some?,
                           ConditionArgs(d.where) + LimitArgs(d)))
  }

  method EncodeQuery(q: Query, counting: bool, filterDeleted: bool) returns (c: Option<Compiled>)
    ensures c == Compilation(q, counting, filterDeleted)
  {
    var d := q.description;
    if counting && (d.take.Some? || d.skip.Some?) { return None; }
    var joins, joined := ResolveJoins(q);
    if joins.None? { return None; }
    var encoder := new ConditionEncoder(joined);
    var whereParts: seq<Expr> := [];
    var i := 0;
    while i < |d.where|
      invariant 0 <= i <= |d.where|
      invariant fresh(encoder) && encoder.joined == joined
      invariant whereParts == AllConditions(d.where[..i], q.table) && encoder.args == ConditionArgs(d.where[..i])
      invariant ConditionsDeclared(d.where[..i], joined)
    {
      assert d.where[..i + 1][..i] == d.where[..i];
      var part := encoder.EncodeCondition(d.where[i], q.table);
      if part.None? {
        assert d.where[i] in d.where;
        return None;
      }
      assert d.where[..i + 1] == d.where[..i] + [d.where[i]];
      whereParts := whereParts + [part.value];
      i := i + 1;
    }
    assert d.where[..i] == d.where;
    if filterDeleted { whereParts := whereParts + [LiveMain(q.table)]; }
    var limit, offset := false, false;
    if d.take.Some? {
      var p := encoder.PushArg(Number(d.take.value as real));
      limit := true;
      if d.skip.Some? {
        p := encoder.PushArg(Number(d.skip.value as real));
        offset := true;
      }
    }
    assert encoder.args == ConditionArgs(d.where) + LimitArgs(d);
    assert whereParts == AllConditions(d.where, q.table) + if filterDeleted then [LiveMain(q.table)] else [];
    c := Some(Compiled(counting, HasToMany(joins.value), q.table, EncodeJoins(joins.value, filterDeleted),
                       whereParts, d.sortBy, limit, offset, encoder.args));
  }

  // ----- what SQLite answers -----

  type Tables = map<string, seq<Row>>

  function RowsOf(tables: Tables, table: string): seq<Row> {
    if table in tables then tables[table] else []
  }

  function Cell(row: Option<Row>, column: string): Sql {
    if row.Some? && column in row.value then row.value[column] else NullValue
  }

  function RowAt(env: Env, table: string): Option<Row> {
    if table in env then env[table] else None
  }

  function JoinMatches(db: Sqlite, rows: seq<Row>, env: Env, join: JoinClause): seq<Env> {
    if |rows| == 0 then []
    else
      var before := JoinMatches(db, rows[..|rows| - 1], env, join);
      var joined := env[join.to := Some(rows[|rows| - 1])];
      if Eval(db, joined, join.on, []).0 == True then before + [joined] else before
  }

  /** A left join keeps a row without a match, with nulls beside it. */
  function LeftJoin(db: Sqlite, tables: Tables, env: Env, join: JoinClause): seq<Env> {
    var found := JoinMatches(db, RowsOf(tables, join.to), env, join);
    if found == [] then [env[join.to := None]] else found
  }

  function JoinEach(db: Sqlite, tables: Tables, envs: seq<Env>, join: JoinClause): seq<Env> {
    if |envs| == 0 then []
    else JoinEach(db, tables, envs[..|envs| - 1], join) + LeftJoin(db, tables, envs[|envs| - 1], join)
  }

  function JoinAll(db: Sqlite, tables: Tables, table: string, row: Row, joins: seq<JoinClause>): seq<Env> {
    if |joins| == 0 then [map[table := Some(row)]]
    else JoinEach(db, tables, JoinAll(db, tables, table, row, joins[..|joins| - 1]), joins[|joins| - 1])
  }

  predicate Selected(db: Sqlite, c: Compiled, env: Env) {
    Eval(db, env, AndExpr(c.where), c.args).0 == True
  }

  function CountSelected(db: Sqlite, c: Compiled, envs: seq<Env>): nat {
    if |envs| == 0 then 0
    else CountSelected(db, c, envs[..|envs| - 1]) + if Selected(db, c, envs[|envs| - 1]) then 1 else 0
  }

  function Copies(row: Row, n: nat): seq<Row> {
    seq(n, i => row)
  }

  /** The main rows of the joined rows that pass, each as often as it was joined. */
  function Plain(db: Sqlite, c: Compiled, tables: Tables, rows: seq<Row>): seq<Row> {
    if |rows| == 0 then []
    else
      var row := rows[|rows| - 1];
      Plain(db, c, tables, rows[..|rows| - 1])
        + Copies(row, CountSelected(db, c, JoinAll(db, tables, c.table, row, c.joins)))
  }

  function Distinct<T(==)>(items: seq<T>): seq<T> {
    if |items| == 0 then []
    else
      var before := Distinct(items[..|items| - 1]);
      if items[|items| - 1] in before then before else before + [items[|items| - 1]]
  }

  /** The rows of a select, before order and limit. */
  function Answer(db: Sqlite, c: Compiled, tables: Tables): seq<Row> {
    var rows := Plain(db, c, tables, RowsOf(tables, c.table));
    if c.distinct then Distinct(rows) else rows
  }

  function Ids(rows: seq<Row>): seq<Sql> {
    if |rows| == 0 then [] else Ids(rows[..|rows| - 1]) + [Cell(Some(rows[|rows| - 1]), "id")]
  }

  /** count(*), or count(distinct id) behind a to-many join. */
  function Count(db: Sqlite, c: Compiled, tables: Tables): nat {
    var rows := Plain(db, c, tables, RowsOf(tables, c.table));
    if c.distinct then |Distinct(Ids(rows))| else |rows|
  }

  // ----- order and page -----

  /** Null sorts first, then as SQLite compares. */
  predicate SortsBefore(db: Sqlite, a: Sql, b: Sql) {
    !b.NullValue? && (a.NullValue? || db.less(a, b))
  }

  /** By the first column that tells the rows apart; a descending one the other way round. */
  predicate ComesBefore(db: Sqlite, sortBy: seq<SortBy>, a: Row, b: Row) {
    |sortBy| > 0 &&
      var x, y := Cell(Some(a), sortBy[0].column), Cell(Some(b), sortBy[0].column);
      var forward := if sortBy[0].descending then SortsBefore(db, y, x) else SortsBefore(db, x, y);
      var backward := if sortBy[0].descending then SortsBefore(db, x, y) else SortsBefore(db, y, x);
      forward || (!backward && ComesBefore(db, sortBy[1..], a, b))
  }

  ghost predicate OrderedBy(db: Sqlite, sortBy: seq<SortBy>, rows: seq<Row>) {
    forall i, j :: 0 <= i < j < |rows| ==> !ComesBefore(db, sortBy, rows[j], rows[i])
  }

  function AsCount(v: Sql): nat {
    if v.Number? && v.n >= 0.0 then v.n.Floor else 0
  }

  /** What limit and offset make of the ordered rows, their placeholders bound to what the where clause left. */
  function Page(c: Compiled, rows: seq<Row>, left: seq<Sql>): seq<Row> {
    if !c.limit then rows
    else
      var (n, more) := Next(left);
      var skipped := if c.offset then AsCount(Next(more).0) else 0;
      var rest := if skipped <= |rows| then rows[skipped..] else [];
      if AsCount(n) <= |rest| then rest[..AsCount(n)] else rest
  }

  /** What a statement answers. */
  datatype SqlResult = Selection(rows: seq<Row>) | Counted(n: nat)

  /** SQLite may answer r: the count, or a page of the selected rows in some order that order by allows. */
  ghost predicate MayAnswer(db: Sqlite, c: Compiled, tables: Tables, r: SqlResult) {
    if c.counting then r == Counted(Count(db, c, tables))
    else
      r.Selection? && exists all: seq<Row> ::
        multiset(all) == multiset(Answer(db, c, tables)) && OrderedBy(db, c.sortBy, all)
        && r.rows == Page(c, all, Eval(db, map[], AndExpr(c.where), c.args).1)
  }

  // ----- what the query means -----

  /** The ON condition of one left join: equal keys, and not a tombstone when those are filtered. */
  predicate OnHolds(from: Option<Row>, info: Info, to: Row, filterDeleted: bool) {
    && (match info
        case BelongsTo(key) => Cell(from, key) != NullValue && Cell(Some(to), "id") == Cell(from, key)
        case HasMany(foreignKey) => Cell(from, "id") != NullValue && Cell(Some(to), foreignKey) == Cell(from, "id"))
    && (filterDeleted ==> Cell(Some(to), "_status") != Text("deleted"))
  }

  /** One row from each joined table, or none where nothing joins: what a left join can put beside a main row. */
  ghost predicate LeftJoined(tables: Tables, table: string, row: Row, joins: seq<Association>, filterDeleted: bool, env: Env) {
    && env.Keys == {table} + Targets(joins)
    && env[table] == Some(row)
    && forall a :: a in joins ==> JoinedBeside(tables, env, a, filterDeleted)
  }

  ghost predicate JoinedBeside(tables: Tables, env: Env, a: Association, filterDeleted: bool) {
    match RowAt(env, a.to)
    case Some(to) => to in RowsOf(tables, a.to) && OnHolds(RowAt(env, a.from), a.info, to, filterDeleted)
    case None => forall to :: to in RowsOf(tables, a.to) ==> !OnHolds(RowAt(env, a.from), a.info, to, filterDeleted)
  }

  /** A live main row some joined row beside which makes every condition true. */
  ghost predicate Matches(db: Sqlite, q: Query, joins: seq<Association>, filterDeleted: bool, tables: Tables, row: Row) {
    && (filterDeleted ==> Cell(Some(row), "_status") != Text("deleted"))
    && exists env :: LeftJoined(tables, q.table, row, joins, filterDeleted, env) && MeetsAll(db, q, env)
  }

  predicate MeetsAll(db: Sqlite, q: Query, env: Env) {
    forall clause :: clause in q.description.where ==> Meaning(db, env, q.table, clause) == True
  }

  /** Each join adds a table of its own, reached from one already there: SQL refuses a table named twice. */
  ghost predicate WellJoined(table: string, joins: seq<Association>) {
    && (forall i :: 0 <= i < |joins| ==> joins[i].to != table)
    && (forall i, j :: 0 <= i < j < |joins| ==> joins[i].to != joins[j].to)
    && (forall i :: 0 <= i < |joins| ==> joins[i].from == table || joins[i].from in Targets(joins[..i]))
  }

  /** The primary key. */
  predicate UniqueIds(tables: Tables) {
    forall t :: t in tables ==>
      && (forall i :: 0 <= i < |tables[t]| ==> Cell(Some(tables[t][i]), "id") != NullValue)
      && (forall i, j :: 0 <= i < j < |tables[t]| ==> Cell(Some(tables[t][i]), "id") != Cell(Some(tables[t][j]), "id"))
  }
}
