/**
 * The Q-to-SQL compiler's conditions (packages/core/src/query/encodeQuery.ts):
 * expressions whose placeholders take the bound arguments in the order they
 * appear, and the encoder that emits both.
 */
module SqlEncoding {
  import opened RawRecords
  import opened MemoryStores
  import opened QueryTrees

  datatype Relation = Is | IsNot | Equals | Greater | GreaterEq | Less | LessEq | LikeEscape | NotLikeEscape | InstrAboveZero

  /** SQL as emitted; Param is a question mark. */
  datatype Expr =
    | ColumnRef(table: string, column: string)
    | Param
    | Literal(v: Sql)
    | Relate(relation: Relation, l: Expr, r: Expr)
    | BetweenExpr(e: Expr, low: Expr, high: Expr)
    | InExpr(e: Expr, count: nat, negated: bool)
    | AndExpr(parts: seq<Expr>)
    | OrExpr(parts: seq<Expr>)

  // ----- what SQLite makes of it -----

  /** The next bound argument; an unbound placeholder is null. */
  function Next(args: seq<Sql>): (Sql, seq<Sql>) {
    if |args| == 0 then (NullValue, []) else (args[0], args[1..])
  }

  function EvalValue(env: Env, e: Expr, args: seq<Sql>): (Sql, seq<Sql>) {
    match e
    case ColumnRef(t, c) => (ValueAt(env, t, c), args)
    case Param => Next(args)
    case Literal(v) => (v, args)
    case _ => (NullValue, args)
  }

  function Take(args: seq<Sql>, count: nat): (seq<Sql>, seq<Sql>) {
    if count == 0 then ([], args)
    else
      var (v, rest) := Next(args);
      var (vs, left) := Take(rest, count - 1);
      ([v] + vs, left)
  }

  function Related(db: Sqlite, relation: Relation, a: Sql, b: Sql): Truth {
    match relation
    case Is => IsSame(a, b)
    case IsNot => Not(IsSame(a, b))
    case Equals => Known(a, b, a == b)
    case Greater => LessThan(db, b, a)
    case GreaterEq => AtMost(db, b, a)
    case Less => LessThan(db, a, b)
    case LessEq => AtMost(db, a, b)
    case LikeEscape => Known(a, b, db.like(a, b))
    case NotLikeEscape => Not(Known(a, b, db.like(a, b)))
    case InstrAboveZero => Known(a, b, db.instr(a, b))
  }

  /** The truth of an expression, and the arguments it leaves for what follows it. */
  function Eval(db: Sqlite, env: Env, e: Expr, args: seq<Sql>): (Truth, seq<Sql>)
    decreases e, 1
  {
    match e
    case ColumnRef(_, _) => (Unknown, args)
    case Param => (Unknown, Next(args).1)
    case Literal(_) => (Unknown, args)
    case Relate(relation, l, r) =>
      var (a, rest) := EvalValue(env, l, args);
      var (b, left) := EvalValue(env, r, rest);
      (Related(db, relation, a, b), left)
    case BetweenExpr(inner, low, high) =>
      var (a, rest) := EvalValue(env, inner, args);
      var (lo, more) := EvalValue(env, low, rest);
      var (hi, left) := EvalValue(env, high, more);
      (AllOf([AtMost(db, lo, a), AtMost(db, a, hi)]), left)
    case InExpr(inner, count, negated) =>
      var (a, rest) := EvalValue(env, inner, args);
      var (values, left) := Take(rest, count);
      (if negated then Not(Among(a, values)) else Among(a, values), left)
    case AndExpr(parts) =>
      var (ts, left) := EvalAll(db, env, e, parts, args);
      (AllOf(ts), left)
    case OrExpr(parts) =>
      var (ts, left) := EvalAll(db, env, e, parts, args);
      (AnyOf(ts), left)
  }

  function EvalAll(db: Sqlite, env: Env, whole: Expr, parts: seq<Expr>, args: seq<Sql>): (seq<Truth>, seq<Sql>)
    requires forall i :: 0 <= i < |parts| ==> parts[i] < whole
    decreases whole, 0, |parts|
  {
    if |parts| == 0 then ([], args)
    else
      var (t, rest) := Eval(db, env, parts[0], args);
      var (ts, left) := EvalAll(db, env, whole, parts[1..], rest);
      ([t] + ts, left)
  }

  // ----- what the encoder emits -----

  function OperandExpr(table: string, right: Operand): Expr {
    match right case Val(_) => Param case ColumnOf(name) => ColumnRef(table, name)
  }

  function OperandArgs(right: Operand): seq<Sql> {
    match right case Val(v) => [v] case ColumnOf(_) => []
  }

  function ComparisonExpr(table: string, left: string, c: Comparison): Expr {
    var col := ColumnRef(table, left);
    match c
    case Eq(right) => Relate(Is, col, OperandExpr(table, right))
    case NotEq(right) => Relate(IsNot, col, OperandExpr(table, right))
    case Gt(right) => Relate(Greater, col, OperandExpr(table, right))
    case Gte(right) => Relate(GreaterEq, col, OperandExpr(table, right))
    case Lt(right) => Relate(Less, col, OperandExpr(table, right))
    case Lte(right) => Relate(LessEq, col, OperandExpr(table, right))
    case Between(_, _) => BetweenExpr(col, Param, Param)
    case OneOf(values) => InExpr(col, |values|, false)
    case NotIn(values) => InExpr(col, |values|, true)
    case Like(_) => Relate(LikeEscape, col, Param)
    case NotLike(_) => Relate(NotLikeEscape, col, Param)
    case Includes(_) => Relate(InstrAboveZero, col, Param)
  }

  function ComparisonArgs(c: Comparison): seq<Sql> {
    match c
    case Eq(right) => OperandArgs(right)
    case NotEq(right) => OperandArgs(right)
    case Gt(right) => OperandArgs(right)
    case Gte(right) => OperandArgs(right)
    case Lt(right) => OperandArgs(right)
    case Lte(right) => OperandArgs(right)
    case Between(low, high) => [low, high]
    case OneOf(values) => values
    case NotIn(values) => values
    case Like(pattern) => [pattern]
    case NotLike(pattern) => [pattern]
    case Includes(substring) => [substring]
  }

  function Encoded(clause: Where, table: string): Expr
    decreases clause, 1
  {
    match clause
    case Compare(left, c) => ComparisonExpr(table, left, c)
    case And(conditions) => AndExpr(AllEncoded(clause, conditions, table))
    case Or(conditions) => OrExpr(AllEncoded(clause, conditions, table))
    case On(other, conditions) =>
      var parts := AllEncoded(clause, conditions, other);
      if |parts| == 1 then parts[0] else AndExpr(parts)
  }

  function AllEncoded(whole: Where, clauses: seq<Where>, table: string): (parts: seq<Expr>)
    requires forall i :: 0 <= i < |clauses| ==> clauses[i] < whole
    ensures |parts| == |clauses|
    decreases whole, 0, |clauses|
  {
    if |clauses| == 0 then [] else [Encoded(clauses[0], table)] + AllEncoded(whole, clauses[1..], table)
  }

  function Args(clause: Where): seq<Sql>
    decreases clause, 1
  {
    match clause
    case Compare(_, c) => ComparisonArgs(c)
    case And(conditions) => AllArgs(clause, conditions)
    case Or(conditions) => AllArgs(clause, conditions)
    case On(_, conditions) => AllArgs(clause, conditions)
  }

  function AllArgs(whole: Where, clauses: seq<Where>): seq<Sql>
    requires forall i :: 0 <= i < |clauses| ==> clauses[i] < whole
    decreases whole, 0, |clauses|
  {
    if |clauses| == 0 then [] else Args(clauses[0]) + AllArgs(whole, clauses[1..])
  }

  /** encodeQuery's shared argument list and the encoders that append to it. */
  class ConditionEncoder {
    var args: seq<Sql>
    const joined: set<string>

    constructor (joined: set<string>)
      ensures args == [] && this.joined == joined
    {
      args := [];
      this.joined := joined;
    }

    method PushArg(value: Sql) returns (placeholder: Expr)
      modifies this`args
      ensures args == old(args) + [value] && placeholder == Param
    {
      args := args + [value];
      placeholder := Param;
    }

    method PushArgs(values: seq<Sql>)
      modifies this`args
      ensures args == old(args) + values
    {
      for i := 0 to |values|
        invariant args == old(args) + values[..i]
      {
        var p := PushArg(values[i]);
      }
    }

    method EncodeValueOrColumn(right: Operand, table: string) returns (e: Expr)
      modifies this`args
      ensures e == OperandExpr(table, right) && args == old(args) + OperandArgs(right)
    {
      match right
      case ColumnOf(name) => e := ColumnRef(table, name);
      case Val(v) => e := PushArg(v);
    }

    method EncodeComparison(table: string, left: string, c: Comparison) returns (e: Expr)
      modifies this`args
      ensures e == ComparisonExpr(table, left, c) && args == old(args) + ComparisonArgs(c)
    {
      var col := ColumnRef(table, left);
      match c
      case Eq(right) => var r := EncodeValueOrColumn(right, table); e := Relate(Is, col, r);
      case NotEq(right) => var r := EncodeValueOrColumn(right, table); e := Relate(IsNot, col, r);
      case Gt(right) => var r := EncodeValueOrColumn(right, table); e := Relate(Greater, col, r);
      case Gte(right) => var r := EncodeValueOrColumn(right, table); e := Relate(GreaterEq, col, r);
      case Lt(right) => var r := EncodeValueOrColumn(right, table); e := Relate(Less, col, r);
      case Lte(right) => var r := EncodeValueOrColumn(right, table); e := Relate(LessEq, col, r);
      case Between(low, high) =>
        var a := PushArg(low);
        var b := PushArg(high);
        e := BetweenExpr(col, a, b);
      case OneOf(values) => PushArgs(values); e := InExpr(col, |values|, false);
      case NotIn(values) => PushArgs(values); e := InExpr(col, |values|, true);
      case Like(pattern) => var r := PushArg(pattern); e := Relate(LikeEscape, col, r);
      case NotLike(pattern) => var r := PushArg(pattern); e := Relate(NotLikeEscape, col, r);
      case Includes(substring) => var r := PushArg(substring); e := Relate(InstrAboveZero, col, r);
    }

    /** None is the throw for a Q.on of a table the query does not join. */
    method EncodeCondition(clause: Where, table: string) returns (e: Option<Expr>)
      modifies this`args
      ensures e.Some? <==> Declared(clause, joined)
      ensures e.Some? ==> e.value == Encoded(clause, table) && args == old(args) + Args(clause)
      decreases clause, 1
    {
      match clause
      case Compare(left, c) =>
        var comparison := EncodeComparison(table, left, c);
        e := Some(comparison);
      case And(conditions) =>
        var parts := EncodeConditions(clause, conditions, table);
        e := if parts.Some? then Some(AndExpr(parts.value)) else None;
      case Or(conditions) =>
        var parts := EncodeConditions(clause, conditions, table);
        e := if parts.Some? then Some(OrExpr(parts.value)) else None;
      case On(other, conditions) =>
        if other !in joined { return None; }
        var parts := EncodeConditions(clause, conditions, other);
        e := if parts.None? then None
             else if |parts.value| == 1 then Some(parts.value[0]) else Some(AndExpr(parts.value));
    }

    method EncodeConditions(ghost whole: Where, clauses: seq<Where>, table: string) returns (parts: Option<seq<Expr>>)
      requires forall i :: 0 <= i < |clauses| ==> clauses[i] < whole
      modifies this`args
      ensures parts.Some? <==> AllDeclared(whole, clauses, joined)
      ensures parts.Some? ==> parts.value == AllEncoded(whole, clauses, table) && args == old(args) + AllArgs(whole, clauses)
      decreases whole, 0, |clauses|
    {
      if |clauses| == 0 { return Some([]); }
      var first := EncodeCondition(clauses[0], table);
      if first.None? { return None; }
      var rest := EncodeConditions(whole, clauses[1..], table);
      if rest.None? { return None; }
      parts := Some([first.value] + rest.value);
    }
  }

  // ----- the compiled condition means what the tree says -----

  lemma {:induction false} TakeAll(values: seq<Sql>, rest: seq<Sql>)
    ensures Take(values + rest, |values|) == (values, rest)
  {
    if |values| == 0 {
      assert values + rest == rest;
    } else {
      assert (values + rest)[1..] == values[1..] + rest;
      TakeAll(values[1..], rest);
      assert [values[0]] + values[1..] == values;
    }
  }

  lemma OperandMeans(env: Env, table: string, right: Operand, rest: seq<Sql>)
    ensures EvalValue(env, OperandExpr(table, right), OperandArgs(right) + rest) == (OperandValue(env, table, right), rest)
  {
    match right
    case Val(v) => assert ([v] + rest)[1..] == rest;
    case ColumnOf(_) => assert [] + rest == rest;
  }

  lemma RelateMeans(db: Sqlite, env: Env, table: string, left: string, relation: Relation, right: Operand, rest: seq<Sql>)
    ensures Eval(db, env, Relate(relation, ColumnRef(table, left), OperandExpr(table, right)), OperandArgs(right) + rest)
              == (Related(db, relation, ValueAt(env, table, left), OperandValue(env, table, right)), rest)
  {
    hide Related;
    OperandMeans(env, table, right, rest);
  }

  lemma ComparisonMeans(db: Sqlite, env: Env, table: string, left: string, c: Comparison, rest: seq<Sql>)
    ensures Eval(db, env, ComparisonExpr(table, left, c), ComparisonArgs(c) + rest) == (Holds(db, env, table, left, c), rest)
  {
    match c
    case Between(low, high) =>
      assert ([low, high] + rest)[1..] == [high] + rest;
      assert ([high] + rest)[1..] == rest;
    case OneOf(values) => TakeAll(values, rest);
    case NotIn(values) => TakeAll(values, rest);
    case Like(p) => RelateMeans(db, env, table, left, LikeEscape, Val(p), rest);
    case NotLike(p) => RelateMeans(db, env, table, left, NotLikeEscape, Val(p), rest);
    case Includes(p) => RelateMeans(db, env, table, left, InstrAboveZero, Val(p), rest);
    case Eq(right) => RelateMeans(db, env, table, left, Is, right, rest);
    case NotEq(right) => RelateMeans(db, env, table, left, IsNot, right, rest);
    case Gt(right) => RelateMeans(db, env, table, left, Greater, right, rest);
    case Gte(right) => RelateMeans(db, env, table, left, GreaterEq, right, rest);
    case Lt(right) => RelateMeans(db, env, table, left, Relation.Less, right, rest);
    case Lte(right) => RelateMeans(db, env, table, left, LessEq, right, rest);
  }

  /**
   * Binding the collected arguments to the emitted placeholders, in order,
   * gives the tree's meaning, and leaves exactly the arguments of what comes
   * after.
   */
  lemma {:induction false} ConditionMeans(db: Sqlite, env: Env, clause: Where, table: string, rest: seq<Sql>)
    ensures Eval(db, env, Encoded(clause, table), Args(clause) + rest) == (Meaning(db, env, table, clause), rest)
    decreases clause, 1
  {
    hide Holds, ComparisonExpr, ComparisonArgs;
    match clause
    case Compare(left, c) => ComparisonMeans(db, env, table, left, c, rest);
    case And(conditions) =>
      ConditionsMean(db, env, clause, Encoded(clause, table), conditions, table, rest);
    case Or(conditions) =>
      ConditionsMean(db, env, clause, Encoded(clause, table), conditions, table, rest);
    case On(other, conditions) =>
      var parts := AllEncoded(clause, conditions, other);
      if |parts| == 1 {
        assert conditions == [conditions[0]] && conditions[1..] == [];
        assert AllArgs(clause, conditions) == Args(conditions[0]) + [];
        assert Args(conditions[0]) + [] == Args(conditions[0]);
        ConditionMeans(db, env, conditions[0], other, rest);
        var t := Meaning(db, env, other, conditions[0]);
        assert Meanings(db, env, other, clause, conditions) == [t];
        assert AllOf([t]) == t;
      } else {
        ConditionsMean(db, env, clause, AndExpr(parts), conditions, other, rest);
      }
  }

  lemma {:induction false} ConditionsMean(db: Sqlite, env: Env, whole: Where, encoded: Expr, clauses: seq<Where>, table: string, rest: seq<Sql>)
    requires forall i :: 0 <= i < |clauses| ==> clauses[i] < whole
    requires forall i :: 0 <= i < |clauses| ==> AllEncoded(whole, clauses, table)[i] < encoded
    ensures EvalAll(db, env, encoded, AllEncoded(whole, clauses, table), AllArgs(whole, clauses) + rest)
              == (Meanings(db, env, table, whole, clauses), rest)
    decreases whole, 0, |clauses|
  {
    if |clauses| == 0 {
      assert [] + rest == rest;
    } else {
      var parts := AllEncoded(whole, clauses, table);
      assert parts[1..] == AllEncoded(whole, clauses[1..], table);
      assert AllArgs(whole, clauses) + rest == Args(clauses[0]) + (AllArgs(whole, clauses[1..]) + rest);
      ConditionMeans(db, env, clauses[0], table, AllArgs(whole, clauses[1..]) + rest);
      ConditionsMean(db, env, whole, encoded, clauses[1..], table, rest);
    }
  }
}
