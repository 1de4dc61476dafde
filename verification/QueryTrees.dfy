/**
 * Query trees as the Q builders make them (packages/core/src/query/ast.ts,
 * Q.ts) and what they mean: SQL's three truth values over a row of each
 * joined table.
 */
module QueryTrees {
  import opened RawRecords
  import opened MemoryStores

  datatype Sql = NullValue | Number(n: real) | Text(s: string) | BlobValue(bytes: seq<byte>)

  datatype Truth = False | Unknown | True

  /** SQLite's own operators on two values that are not null. */
  datatype Sqlite = Sqlite(less: (Sql, Sql) -> bool, like: (Sql, Sql) -> bool, instr: (Sql, Sql) -> bool)

  datatype Operand = Val(v: Sql) | ColumnOf(name: string)

  datatype Comparison =
    | Eq(right: Operand)
    | NotEq(right: Operand)
    | Gt(right: Operand)
    | Gte(right: Operand)
    | Lt(right: Operand)
    | Lte(right: Operand)
    | Between(low: Sql, high: Sql)
    | OneOf(values: seq<Sql>)
    | NotIn(values: seq<Sql>)
    | Like(pattern: Sql)
    | NotLike(pattern: Sql)
    | Includes(substring: Sql)

  datatype Where =
    | Compare(left: string, comparison: Comparison)
    | And(conditions: seq<Where>)
    | Or(conditions: seq<Where>)
    | On(table: string, conditions: seq<Where>)

  // ----- rows -----

  type Row = map<string, Sql>

  /** The row each table contributes, or None where a left join found none. */
  type Env = map<string, Option<Row>>

  function ValueAt(env: Env, table: string, column: string): Sql {
    if table in env && env[table].Some? && column in env[table].value then env[table].value[column] else NullValue
  }

  // ----- truth -----

  function Sure(b: bool): Truth {
    if b then True else False
  }

  function Not(t: Truth): Truth {
    match t case True => False case False => True case Unknown => Unknown
  }

  function AllOf(ts: seq<Truth>): Truth {
    if False in ts then False else if Unknown in ts then Unknown else True
  }

  function AnyOf(ts: seq<Truth>): Truth {
    if True in ts then True else if Unknown in ts then Unknown else False
  }

  function IsSame(a: Sql, b: Sql): Truth {
    Sure(a == b)
  }

  /** A comparison of values: unknown as soon as one is null. */
  function Known(a: Sql, b: Sql, outcome: bool): Truth {
    if a.NullValue? || b.NullValue? then Unknown else Sure(outcome)
  }

  function LessThan(db: Sqlite, a: Sql, b: Sql): Truth {
    Known(a, b, db.less(a, b))
  }

  function AtMost(db: Sqlite, a: Sql, b: Sql): Truth {
    Known(a, b, db.less(a, b) || a == b)
  }

  function Among(a: Sql, values: seq<Sql>): Truth {
    if |values| == 0 then False
    else AnyOf([Known(a, values[0], a == values[0]), Among(a, values[1..])])
  }

  // ----- meaning -----

  function OperandValue(env: Env, table: string, right: Operand): Sql {
    match right case Val(v) => v case ColumnOf(name) => ValueAt(env, table, name)
  }

  function Holds(db: Sqlite, env: Env, table: string, left: string, c: Comparison): Truth {
    var a := ValueAt(env, table, left);
    match c
    case Eq(right) => IsSame(a, OperandValue(env, table, right))
    case NotEq(right) => Not(IsSame(a, OperandValue(env, table, right)))
    case Gt(right) => LessThan(db, OperandValue(env, table, right), a)
    case Gte(right) => AtMost(db, OperandValue(env, table, right), a)
    case Lt(right) => LessThan(db, a, OperandValue(env, table, right))
    case Lte(right) => AtMost(db, a, OperandValue(env, table, right))
    case Between(low, high) => AllOf([AtMost(db, low, a), AtMost(db, a, high)])
    case OneOf(values) => Among(a, values)
    case NotIn(values) => Not(Among(a, values))
    case Like(pattern) => Known(a, pattern, db.like(a, pattern))
    case NotLike(pattern) => Not(Known(a, pattern, db.like(a, pattern)))
    case Includes(substring) => Known(a, substring, db.instr(a, substring))
  }

  /** What a condition says in the context of a table. */
  function Meaning(db: Sqlite, env: Env, table: string, clause: Where): Truth
    decreases clause, 1
  {
    match clause
    case Compare(left, c) => Holds(db, env, table, left, c)
    case And(conditions) => AllOf(Meanings(db, env, table, clause, conditions))
    case Or(conditions) => AnyOf(Meanings(db, env, table, clause, conditions))
    case On(other, conditions) => AllOf(Meanings(db, env, other, clause, conditions))
  }

  function Meanings(db: Sqlite, env: Env, table: string, whole: Where, clauses: seq<Where>): (ts: seq<Truth>)
    requires forall i :: 0 <= i < |clauses| ==> clauses[i] < whole
    ensures |ts| == |clauses|
    decreases whole, 0, |clauses|
  {
    if |clauses| == 0 then []
    else [Meaning(db, env, table, clauses[0])] + Meanings(db, env, table, whole, clauses[1..])
  }

  /** Every Q.on names a table the query joins. */
  predicate Declared(clause: Where, joined: set<string>)
    decreases clause, 1
  {
    match clause
    case Compare(_, _) => true
    case And(conditions) => AllDeclared(clause, conditions, joined)
    case Or(conditions) => AllDeclared(clause, conditions, joined)
    case On(other, conditions) => other in joined && AllDeclared(clause, conditions, joined)
  }

  predicate AllDeclared(whole: Where, clauses: seq<Where>, joined: set<string>)
    requires forall i :: 0 <= i < |clauses| ==> clauses[i] < whole
    decreases whole, 0, |clauses|
  {
    |clauses| > 0 ==> Declared(clauses[0], joined) && AllDeclared(whole, clauses[1..], joined)
  }

  /** The tables some Q.on of a condition names, at any depth. */
  ghost function OnTables(clause: Where): set<string>
    decreases clause, 1
  {
    match clause
    case Compare(_, _) => {}
    case And(conditions) => AllOnTables(clause, conditions)
    case Or(conditions) => AllOnTables(clause, conditions)
    case On(other, conditions) => {other} + AllOnTables(clause, conditions)
  }

  ghost function AllOnTables(whole: Where, clauses: seq<Where>): set<string>
    requires forall i :: 0 <= i < |clauses| ==> clauses[i] < whole
    decreases whole, 0, |clauses|
  {
    if |clauses| == 0 then {} else OnTables(clauses[0]) + AllOnTables(whole, clauses[1..])
  }

  lemma {:induction false} DeclaredIs(clause: Where, joined: set<string>)
    ensures Declared(clause, joined) <==> OnTables(clause) <= joined
    decreases clause, 1
  {
    match clause
    case Compare(_, _) =>
    case And(conditions) => AllDeclaredIs(clause, conditions, joined);
    case Or(conditions) => AllDeclaredIs(clause, conditions, joined);
    case On(_, conditions) => AllDeclaredIs(clause, conditions, joined);
  }

  lemma {:induction false} AllDeclaredIs(whole: Where, clauses: seq<Where>, joined: set<string>)
    requires forall i :: 0 <= i < |clauses| ==> clauses[i] < whole
    ensures AllDeclared(whole, clauses, joined) <==> AllOnTables(whole, clauses) <= joined
    decreases whole, 0, |clauses|
  {
    if |clauses| > 0 {
      DeclaredIs(clauses[0], joined);
      AllDeclaredIs(whole, clauses[1..], joined);
    }
  }
}
