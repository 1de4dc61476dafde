/**
 * Compiled queries mean what the tree says: a select answers each matching
 * live row exactly once, and a count says how many there are.
 */
module QueryMeaning {
  import opened RawRecords
  import opened MemoryStores
  import opened QueryTrees
  import opened SqlEncoding
  import opened QueryCompiler

  // ----- conditions -----

  lemma {:induction false} EvalAllConcat(db: Sqlite, env: Env, whole: Expr, a: seq<Expr>, b: seq<Expr>, args: seq<Sql>)
    requires forall i :: 0 <= i < |a| ==> a[i] < whole
    requires forall i :: 0 <= i < |b| ==> b[i] < whole
    ensures var (ts, rest) := EvalAll(db, env, whole, a, args);
            var (us, left) := EvalAll(db, env, whole, b, rest);
            EvalAll(db, env, whole, a + b, args) == (ts + us, left)
    decreases |a|
  {
    hide Eval;
    if |a| == 0 {
      assert a + b == b;
      assert [] + EvalAll(db, env, whole, b, args).0 == EvalAll(db, env, whole, b, args).0;
    } else {
      assert (a + b)[1..] == a[1..] + b;
      var (t, next) := Eval(db, env, a[0], args);
      EvalAllConcat(db, env, whole, a[1..], b, next);
      var (ts, rest) := EvalAll(db, env, whole, a[1..], next);
      var (us, left) := EvalAll(db, env, whole, b, rest);
      assert [t] + (ts + us) == ([t] + ts) + us;
    }
  }

  lemma EvalOne(db: Sqlite, env: Env, whole: Expr, e: Expr, args: seq<Sql>)
    requires e < whole
    ensures EvalAll(db, env, whole, [e], args) == ([Eval(db, env, e, args).0], Eval(db, env, e, args).1)
  {
    assert [e][1..] == [];
    assert [Eval(db, env, e, args).0] + [] == [Eval(db, env, e, args).0];
  }

  predicate AllTrue(ts: seq<Truth>) {
    forall t :: t in ts ==> t == True
  }

  predicate AllMean(db: Sqlite, env: Env, table: string, clauses: seq<Where>) {
    forall clause :: clause in clauses ==> Meaning(db, env, table, clause) == True
  }

  lemma OneMoreTrue(db: Sqlite, env: Env, table: string, ts: seq<Truth>, clauses: seq<Where>, clause: Where)
    requires AllTrue(ts) <==> AllMean(db, env, table, clauses)
    ensures AllTrue(ts + [Meaning(db, env, table, clause)]) <==> AllMean(db, env, table, clauses + [clause])
  {
    hide Meaning;
    var t := Meaning(db, env, table, clause);
    assert AllTrue(ts + [t]) <==> AllTrue(ts) && t == True by {
      assert t in ts + [t];
      assert forall u :: u in ts ==> u in ts + [t];
    }
    assert AllMean(db, env, table, clauses + [clause]) <==> AllMean(db, env, table, clauses) && t == True by {
      assert clause in clauses + [clause];
      assert forall c :: c in clauses ==> c in clauses + [clause];
    }
  }

  lemma AllOfTrue(ts: seq<Truth>)
    ensures AllOf(ts) == True <==> AllTrue(ts)
  {
    if !AllTrue(ts) {
      var t :| t in ts && t != True;
      assert t == False || t == Unknown;
    }
  }

  /** The where list, its arguments bound in order, is true exactly when every condition is. */
  lemma {:induction false} ConditionsHold(db: Sqlite, env: Env, whole: Expr, clauses: seq<Where>, table: string, rest: seq<Sql>)
    requires forall i :: 0 <= i < |AllConditions(clauses, table)| ==> AllConditions(clauses, table)[i] < whole
    ensures var (ts, left) := EvalAll(db, env, whole, AllConditions(clauses, table), ConditionArgs(clauses) + rest);
            left == rest && (AllTrue(ts) <==> AllMean(db, env, table, clauses))
  {
    hide Meaning, Encoded, Eval, Args, AllTrue, AllMean;
    if |clauses| == 0 {
      assert ConditionArgs(clauses) + rest == rest;
      NothingTrue(db, env, table);
    } else {
      var prefix, last := clauses[..|clauses| - 1], clauses[|clauses| - 1];
      var before := AllConditions(prefix, table);
      var more := Args(last) + rest;
      assert AllConditions(clauses, table) == before + [Encoded(last, table)];
      assert forall i :: 0 <= i < |before| ==> before[i] == AllConditions(clauses, table)[i];
      assert AllConditions(clauses, table)[|before|] == Encoded(last, table);
      assert ConditionArgs(clauses) + rest == ConditionArgs(prefix) + more;
      ConditionsHold(db, env, whole, prefix, table, more);
      EvalAllConcat(db, env, whole, before, [Encoded(last, table)], ConditionArgs(prefix) + more);
      EvalOne(db, env, whole, Encoded(last, table), more);
      ConditionMeans(db, env, last, table, rest);
      OneMoreTrue(db, env, table, EvalAll(db, env, whole, before, ConditionArgs(prefix) + more).0, prefix, last);
      assert clauses == prefix + [last];
    }
  }

  lemma NothingTrue(db: Sqlite, env: Env, table: string)
    ensures AllTrue([]) && AllMean(db, env, table, [])
  {
  }

  /** The whole where clause: its truth, and what it leaves to bind. */
  lemma WhereMeans(db: Sqlite, q: Query, counting: bool, filterDeleted: bool, env: Env)
    requires Compilation(q, counting, filterDeleted).Some?
    ensures var c := Compilation(q, counting, filterDeleted).value;
            var (t, left) := Eval(db, env, AndExpr(c.where), c.args);
            && left == LimitArgs(q.description)
            && (t == True <==>
                  AllMean(db, env, q.table, q.description.where)
                  && (filterDeleted ==> ValueAt(env, q.table, "_status") != Text("deleted")))
  {
    var c := Compilation(q, counting, filterDeleted).value;
    var d := q.description;
    var conditions := AllConditions(d.where, q.table);
    var live := if filterDeleted then [LiveMain(q.table)] else [];
    assert c.where == conditions + live && c.args == ConditionArgs(d.where) + LimitArgs(d);
    hide Compilation, AllMean, LimitArgs, AllConditions, ConditionArgs;
    WhereParts(db, env, q.table, d.where, conditions, filterDeleted, c.where, c.args, LimitArgs(d));
  }

  lemma WhereParts(db: Sqlite, env: Env, table: string, clauses: seq<Where>, conditions: seq<Expr>, filterDeleted: bool,
                   parts: seq<Expr>, args: seq<Sql>, rest: seq<Sql>)
    requires conditions == AllConditions(clauses, table) && args == ConditionArgs(clauses) + rest
    requires parts == conditions + if filterDeleted then [LiveMain(table)] else []
    ensures var (t, left) := Eval(db, env, AndExpr(parts), args);
            && left == rest
            && (t == True <==>
                  AllMean(db, env, table, clauses) && (filterDeleted ==> ValueAt(env, table, "_status") != Text("deleted")))
  {
    hide AllMean, AllConditions, ConditionArgs;
    var whole := AndExpr(parts);
    var live := if filterDeleted then [LiveMain(table)] else [];
    assert forall i :: 0 <= i < |conditions| ==> conditions[i] == whole.parts[i];
    assert forall i :: 0 <= i < |live| ==> live[i] == whole.parts[|conditions| + i];
    ConditionsHold(db, env, whole, clauses, table, rest);
    EvalAllConcat(db, env, whole, conditions, live, args);
    var (ts, left) := EvalAll(db, env, whole, conditions, args);
    LiveMeans(db, env, table, whole, filterDeleted, rest);
    var us := EvalAll(db, env, whole, live, rest).0;
    AllOfTrue(ts + us);
    TrueConcat(ts, us);
  }

  lemma TrueConcat(a: seq<Truth>, b: seq<Truth>)
    ensures AllTrue(a + b) <==> AllTrue(a) && AllTrue(b)
  {
    assert forall t :: t in a ==> t in a + b;
    assert forall t :: t in b ==> t in a + b;
  }

  lemma LiveMeans(db: Sqlite, env: Env, table: string, whole: Expr, filterDeleted: bool, args: seq<Sql>)
    requires filterDeleted ==> LiveMain(table) < whole
    ensures var (ts, left) := EvalAll(db, env, whole, if filterDeleted then [LiveMain(table)] else [], args);
            left == args && (AllTrue(ts) <==> (filterDeleted ==> ValueAt(env, table, "_status") != Text("deleted")))
  {
    if filterDeleted {
      EvalOne(db, env, whole, LiveMain(table), args);
      var t := Eval(db, env, LiveMain(table), args).0;
      assert t in [t];
    }
  }

  /** A joined row passes the statement exactly when it makes every condition true and its main row is live. */
  lemma SelectedMeans(db: Sqlite, q: Query, counting: bool, filterDeleted: bool, env: Env)
    requires Compilation(q, counting, filterDeleted).Some?
    ensures Selected(db, Compilation(q, counting, filterDeleted).value, env) <==>
              MeetsAll(db, q, env) && (filterDeleted ==> ValueAt(env, q.table, "_status") != Text("deleted"))
  {
    WhereMeans(db, q, counting, filterDeleted, env);
    hide Compilation, Eval, Meaning;
  }

  // ----- joins -----

  lemma KeyMeans(db: Sqlite, env: Env, a: Association, row: Row, filterDeleted: bool, args: seq<Sql>)
    requires a.from != a.to
    ensures var joined := env[a.to := Some(row)];
            var key := EncodeJoin(a, filterDeleted).on.parts[0];
            && Eval(db, joined, key, args).1 == args
            && (Eval(db, joined, key, args).0 == True <==> OnHolds(RowAt(env, a.from), a.info, row, false))
  {
    var joined := env[a.to := Some(row)];
    assert RowAt(joined, a.from) == RowAt(env, a.from) && RowAt(joined, a.to) == Some(row);
  }

  /** The emitted ON condition is the association's. */
  lemma OnMeans(db: Sqlite, env: Env, a: Association, row: Row, filterDeleted: bool)
    requires a.from != a.to
    ensures Eval(db, env[a.to := Some(row)], EncodeJoin(a, filterDeleted).on, []).0 == True
            <==> OnHolds(RowAt(env, a.from), a.info, row, filterDeleted)
  {
    var joined := env[a.to := Some(row)];
    var on := EncodeJoin(a, filterDeleted).on;
    var key := on.parts[0];
    var live := if filterDeleted then [LiveMain(a.to)] else [];
    assert on.parts == [key] + live;
    assert forall i :: 0 <= i < |live| ==> live[i] == on.parts[1 + i];
    assert filterDeleted ==> live[0] == LiveMain(a.to);
    KeyMeans(db, env, a, row, filterDeleted, []);
    EvalOne(db, joined, on, key, []);
    LiveMeans(db, joined, a.to, on, filterDeleted, []);
    assert ValueAt(joined, a.to, "_status") == Cell(Some(row), "_status");
    EvalAllConcat(db, joined, on, [key], live, []);
    var t := Eval(db, joined, key, []).0;
    var us := EvalAll(db, joined, on, live, []).0;
    hide EncodeJoin, LiveMain, EvalValue;
    assert Eval(db, joined, on, []).0 == AllOf([t] + us);
    AllOfTrue([t] + us);
    TrueConcat([t], us);
    assert AllTrue([t]) <==> t == True by { assert t in [t]; }
  }

  lemma {:induction false} JoinMatchesAre(db: Sqlite, rows: seq<Row>, env: Env, a: Association, filterDeleted: bool)
    requires a.from != a.to
    ensures forall e :: e in JoinMatches(db, rows, env, EncodeJoin(a, filterDeleted)) <==>
              exists row :: row in rows && OnHolds(RowAt(env, a.from), a.info, row, filterDeleted) && e == env[a.to := Some(row)]
  {
    if |rows| > 0 {
      JoinMatchesAre(db, rows[..|rows| - 1], env, a, filterDeleted);
      OnMeans(db, env, a, rows[|rows| - 1], filterDeleted);
      hide OnHolds, Eval;
      assert rows == rows[..|rows| - 1] + [rows[|rows| - 1]];
    }
  }

  lemma Nothing<T>(items: seq<T>)
    ensures items == [] || exists x :: x in items
  {
    if |items| > 0 { assert items[0] in items; }
  }

  /** What a left join puts beside a joined row. */
  ghost predicate Beside(tables: Tables, env: Env, a: Association, filterDeleted: bool, e: Env) {
    if exists row :: row in RowsOf(tables, a.to) && OnHolds(RowAt(env, a.from), a.info, row, filterDeleted)
    then exists row :: row in RowsOf(tables, a.to) && OnHolds(RowAt(env, a.from), a.info, row, filterDeleted) && e == env[a.to := Some(row)]
    else e == env[a.to := None]
  }

  lemma LeftJoinIs(db: Sqlite, tables: Tables, env: Env, a: Association, filterDeleted: bool)
    requires a.from != a.to
    ensures forall e :: e in LeftJoin(db, tables, env, EncodeJoin(a, filterDeleted)) <==> Beside(tables, env, a, filterDeleted, e)
  {
    var rows := RowsOf(tables, a.to);
    JoinMatchesAre(db, rows, env, a, filterDeleted);
    hide OnHolds, JoinMatches;
    var found := JoinMatches(db, rows, env, EncodeJoin(a, filterDeleted));
    if exists row :: row in rows && OnHolds(RowAt(env, a.from), a.info, row, filterDeleted) {
      var row :| row in rows && OnHolds(RowAt(env, a.from), a.info, row, filterDeleted);
      assert env[a.to := Some(row)] in found;
    } else {
      forall e ensures e !in found {
      }
      Nothing(found);
    }
  }

  lemma {:induction false} JoinEachIs(db: Sqlite, tables: Tables, envs: seq<Env>, join: JoinClause)
    ensures forall e :: e in JoinEach(db, tables, envs, join) <==> exists env :: env in envs && e in LeftJoin(db, tables, env, join)
  {
    hide LeftJoin;
    if |envs| > 0 {
      JoinEachIs(db, tables, envs[..|envs| - 1], join);
      assert envs == envs[..|envs| - 1] + [envs[|envs| - 1]];
    }
  }

  lemma LastTargetIsNew(table: string, joins: seq<Association>)
    requires WellJoined(table, joins) && |joins| > 0
    ensures var last := joins[|joins| - 1];
            var prefix := joins[..|joins| - 1];
            && WellJoined(table, prefix) && NewTarget(table, prefix, last) && joins == prefix + [last]
  {
    var last, prefix := joins[|joins| - 1], joins[..|joins| - 1];
    assert joins == prefix + [last];
    forall i | 0 <= i < |prefix| ensures prefix[..i] == joins[..i] {
    }
    forall a | a in prefix ensures a.to != last.to && a.from != last.to {
      var i :| 0 <= i < |prefix| && prefix[i] == a;
      assert joins[i] == a;
      EarlierTarget(table, joins, i);
    }
    EarlierTarget(table, joins, |joins| - 1);
  }

  /** A join never starts from its own target or from a later one. */
  lemma EarlierTarget(table: string, joins: seq<Association>, i: nat)
    requires WellJoined(table, joins) && i < |joins|
    ensures joins[i].from != joins[|joins| - 1].to && joins[i].from != joins[i].to
  {
    if joins[i].from != table {
      assert joins[i].from in Targets(joins[..i]);
      var b :| b in joins[..i] && b.to == joins[i].from;
      var j :| 0 <= j < i && joins[j] == b;
    }
  }

  lemma SameJoinedBeside(tables: Tables, a: Association, filterDeleted: bool, e: Env, env: Env)
    requires RowAt(e, a.to) == RowAt(env, a.to) && RowAt(e, a.from) == RowAt(env, a.from)
    ensures JoinedBeside(tables, e, a, filterDeleted) <==> JoinedBeside(tables, env, a, filterDeleted)
  {
  }

  lemma BesideIsJoined(tables: Tables, a: Association, filterDeleted: bool, e: Env, env: Env)
    requires a.to !in env && a.from != a.to
    ensures Beside(tables, env, a, filterDeleted, e) <==>
              a.to in e && e - {a.to} == env && JoinedBeside(tables, e, a, filterDeleted)
  {
    hide OnHolds;
    if a.to in e && e - {a.to} == env {
      assert e == env[a.to := e[a.to]];
      assert RowAt(e, a.from) == RowAt(env, a.from);
      assert RowAt(e, a.to) == e[a.to];
    }
    if Beside(tables, env, a, filterDeleted, e) {
      assert e - {a.to} == env;
    }
  }

  /** The last join reaches a table of its own from one already there. */
  ghost predicate NewTarget(table: string, prefix: seq<Association>, last: Association) {
    && last.to != table && last.to !in Targets(prefix) && last.from != last.to
    && forall a :: a in prefix ==> a.to != last.to && a.from != last.to
  }

  /** One more join: a left-joined row is one over the earlier joins with the last table put beside it. */
  lemma LeftJoinedMore(tables: Tables, table: string, row: Row, prefix: seq<Association>, last: Association, filterDeleted: bool, env: Env, e: Env)
    requires NewTarget(table, prefix, last)
    requires LeftJoined(tables, table, row, prefix, filterDeleted, env)
    requires Beside(tables, env, last, filterDeleted, e)
    ensures LeftJoined(tables, table, row, prefix + [last], filterDeleted, e)
  {
    hide Beside, Targets, JoinedBeside;
    BesideIsJoined(tables, last, filterDeleted, e, env);
    TargetsMore(prefix, last);
    assert e.Keys == env.Keys + {last.to};
    forall a | a in prefix + [last] ensures JoinedBeside(tables, e, a, filterDeleted) {
      if a in prefix { SameJoinedBeside(tables, a, filterDeleted, e, env); }
    }
  }

  lemma LeftJoinedLess(tables: Tables, table: string, row: Row, prefix: seq<Association>, last: Association, filterDeleted: bool, e: Env)
    requires NewTarget(table, prefix, last)
    requires LeftJoined(tables, table, row, prefix + [last], filterDeleted, e)
    ensures LeftJoined(tables, table, row, prefix, filterDeleted, e - {last.to})
    ensures Beside(tables, e - {last.to}, last, filterDeleted, e)
  {
    hide Beside, Targets, JoinedBeside;
    var env := e - {last.to};
    TargetsMore(prefix, last);
    assert last in prefix + [last];
    forall a | a in prefix ensures JoinedBeside(tables, env, a, filterDeleted) {
      assert a in prefix + [last];
      SameJoinedBeside(tables, a, filterDeleted, e, env);
    }
    BesideIsJoined(tables, last, filterDeleted, e, env);
  }

  /** The emitted joins produce exactly the left-joined rows. */
  lemma {:induction false} JoinAllIs(db: Sqlite, tables: Tables, table: string, row: Row, joins: seq<Association>, filterDeleted: bool)
    requires WellJoined(table, joins)
    ensures forall e :: e in JoinAll(db, tables, table, row, EncodeJoins(joins, filterDeleted))
              <==> LeftJoined(tables, table, row, joins, filterDeleted, e)
    decreases |joins|
  {
    if |joins| == 0 {
      forall e | LeftJoined(tables, table, row, joins, filterDeleted, e) ensures e == map[table := Some(row)] {
      }
    } else {
      hide LeftJoined, LeftJoin, Beside, WellJoined, EncodeJoin, JoinEach;
      var prefix, last := joins[..|joins| - 1], joins[|joins| - 1];
      LastTargetIsNew(table, joins);
      JoinAllIs(db, tables, table, row, prefix, filterDeleted);
      JoinLast(db, tables, table, row, joins, filterDeleted);
      var envs := JoinAll(db, tables, table, row, EncodeJoins(prefix, filterDeleted));
      var all := JoinAll(db, tables, table, row, EncodeJoins(joins, filterDeleted));
      hide JoinAll, EncodeJoins;
      JoinEachIs(db, tables, envs, EncodeJoin(last, filterDeleted));
      forall e | e in all ensures LeftJoined(tables, table, row, joins, filterDeleted, e) {
        var env :| env in envs && e in LeftJoin(db, tables, env, EncodeJoin(last, filterDeleted));
        LeftJoinIs(db, tables, env, last, filterDeleted);
        LeftJoinedMore(tables, table, row, prefix, last, filterDeleted, env, e);
      }
      forall e | LeftJoined(tables, table, row, joins, filterDeleted, e) ensures e in all {
        LeftJoinedLess(tables, table, row, prefix, last, filterDeleted, e);
        LeftJoinIs(db, tables, e - {last.to}, last, filterDeleted);
      }
    }
  }

  lemma JoinLast(db: Sqlite, tables: Tables, table: string, row: Row, joins: seq<Association>, filterDeleted: bool)
    requires |joins| > 0
    ensures var prefix, last := joins[..|joins| - 1], joins[|joins| - 1];
            JoinAll(db, tables, table, row, EncodeJoins(joins, filterDeleted))
            == JoinEach(db, tables, JoinAll(db, tables, table, row, EncodeJoins(prefix, filterDeleted)), EncodeJoin(last, filterDeleted))
  {
    hide EncodeJoin, JoinEach;
    var prefix, last := joins[..|joins| - 1], joins[|joins| - 1];
    var clauses := EncodeJoins(joins, filterDeleted);
    assert clauses[..|clauses| - 1] == EncodeJoins(prefix, filterDeleted);
  }

  // ----- to-one joins do not fan out -----

  lemma {:induction false} ToOneMatches(db: Sqlite, rows: seq<Row>, env: Env, a: Association, filterDeleted: bool)
    requires a.info.BelongsTo? && a.from != a.to
    requires forall i, j :: 0 <= i < j < |rows| ==> Cell(Some(rows[i]), "id") != Cell(Some(rows[j]), "id")
    ensures |JoinMatches(db, rows, env, EncodeJoin(a, filterDeleted))| <= 1
    ensures |JoinMatches(db, rows, env, EncodeJoin(a, filterDeleted))| == 1 ==>
              exists i :: 0 <= i < |rows| && Cell(Some(rows[i]), "id") == Cell(RowAt(env, a.from), a.info.key)
  {
    if |rows| > 0 {
      var prefix := rows[..|rows| - 1];
      ToOneMatches(db, prefix, env, a, filterDeleted);
      OnMeans(db, env, a, rows[|rows| - 1], filterDeleted);
      hide Eval;
      if |JoinMatches(db, prefix, env, EncodeJoin(a, filterDeleted))| == 1 {
        var i :| 0 <= i < |prefix| && Cell(Some(prefix[i]), "id") == Cell(RowAt(env, a.from), a.info.key);
        assert rows[i] == prefix[i];
      }
      assert rows[|rows| - 1] == rows[|rows| - 1];
    }
  }

  lemma {:induction false} ToOneJoins(db: Sqlite, tables: Tables, table: string, row: Row, joins: seq<Association>, filterDeleted: bool)
    requires UniqueIds(tables) && !HasToMany(joins) && forall a :: a in joins ==> a.from != a.to
    ensures |JoinAll(db, tables, table, row, EncodeJoins(joins, filterDeleted))| == 1
    decreases |joins|
  {
    if |joins| > 0 {
      var prefix, last := joins[..|joins| - 1], joins[|joins| - 1];
      assert last in joins;
      forall a | a in prefix ensures !a.info.HasMany? && a.from != a.to {
        assert a in joins;
      }
      ToOneJoins(db, tables, table, row, prefix, filterDeleted);
      JoinLast(db, tables, table, row, joins, filterDeleted);
      var envs := JoinAll(db, tables, table, row, EncodeJoins(prefix, filterDeleted));
      ToOneMatches(db, RowsOf(tables, last.to), envs[0], last, filterDeleted);
      hide JoinMatches, JoinAll, EncodeJoins;
      assert envs[..0] == [];
      assert JoinEach(db, tables, [], EncodeJoin(last, filterDeleted)) == [];
    }
  }

  lemma NotFromItself(table: string, joins: seq<Association>)
    requires WellJoined(table, joins)
    ensures forall a :: a in joins ==> a.from != a.to
  {
    forall a | a in joins ensures a.from != a.to {
      var i :| 0 <= i < |joins| && joins[i] == a;
      EarlierTarget(table, joins, i);
    }
  }

  // ----- what comes out -----

  lemma {:induction false} CountSelectedIs(db: Sqlite, c: Compiled, envs: seq<Env>)
    ensures CountSelected(db, c, envs) <= |envs|
    ensures CountSelected(db, c, envs) > 0 <==> exists env :: env in envs && Selected(db, c, env)
  {
    hide Selected;
    if |envs| > 0 {
      CountSelectedIs(db, c, envs[..|envs| - 1]);
      assert envs == envs[..|envs| - 1] + [envs[|envs| - 1]];
    }
  }

  ghost predicate NoRepeats<T>(items: seq<T>) {
    forall i, j :: 0 <= i < j < |items| ==> items[i] != items[j]
  }

  lemma {:induction false} DistinctIs<T>(items: seq<T>)
    ensures NoRepeats(Distinct(items))
    ensures forall x :: x in Distinct(items) <==> x in items
  {
    if |items| > 0 {
      DistinctIs(items[..|items| - 1]);
      assert items == items[..|items| - 1] + [items[|items| - 1]];
    }
  }

  /** How often a main row comes out of the joins and conditions. */
  function Multiplicity(db: Sqlite, c: Compiled, tables: Tables, row: Row): nat {
    CountSelected(db, c, JoinAll(db, tables, c.table, row, c.joins))
  }

  lemma {:induction false} PlainIs(db: Sqlite, c: Compiled, tables: Tables, rows: seq<Row>)
    ensures forall row :: row in Plain(db, c, tables, rows) <==> row in rows && Multiplicity(db, c, tables, row) > 0
    ensures NoRepeats(rows) && (forall row :: row in rows ==> Multiplicity(db, c, tables, row) <= 1) ==> NoRepeats(Plain(db, c, tables, rows))
  {
    hide CountSelected, JoinAll;
    if |rows| > 0 {
      var prefix, last := rows[..|rows| - 1], rows[|rows| - 1];
      PlainIs(db, c, tables, prefix);
      assert rows == prefix + [last];
      var copies := Copies(last, Multiplicity(db, c, tables, last));
      assert Multiplicity(db, c, tables, last) > 0 ==> copies[0] == last;
      if NoRepeats(rows) && forall row :: row in rows ==> Multiplicity(db, c, tables, row) <= 1 {
        assert forall row :: row in prefix ==> row in rows;
        assert last in rows;
        PlainPrefixApart(db, c, tables, prefix, last);
        var before := Plain(db, c, tables, prefix);
        forall i, j | 0 <= i < j < |before + copies| ensures (before + copies)[i] != (before + copies)[j] {
          assert i < |before| ==> before[i] in before;
        }
      }
    }
  }

  lemma PlainPrefixApart(db: Sqlite, c: Compiled, tables: Tables, prefix: seq<Row>, last: Row)
    requires NoRepeats(prefix + [last])
    requires forall row :: row in Plain(db, c, tables, prefix) ==> row in prefix
    ensures last !in Plain(db, c, tables, prefix)
  {
    forall row | row in prefix ensures row != last {
      var i :| 0 <= i < |prefix| && prefix[i] == row;
      assert (prefix + [last])[i] != (prefix + [last])[|prefix|];
    }
  }

  /** A main row comes out at all exactly when it matches, and at most once without a to-many join. */
  lemma MultiplicityMeans(db: Sqlite, q: Query, counting: bool, filterDeleted: bool, tables: Tables, row: Row)
    requires Compilation(q, counting, filterDeleted).Some? && WellJoined(q.table, Joins(q).value) && UniqueIds(tables)
    ensures var c := Compilation(q, counting, filterDeleted).value;
            && (Multiplicity(db, c, tables, row) > 0 <==> Matches(db, q, Joins(q).value, filterDeleted, tables, row))
            && (!c.distinct ==> Multiplicity(db, c, tables, row) <= 1)
  {
    var c := Compilation(q, counting, filterDeleted).value;
    var joins := Joins(q).value;
    var envs := JoinAll(db, tables, q.table, row, EncodeJoins(joins, filterDeleted));
    assert c.joins == EncodeJoins(joins, filterDeleted) && c.table == q.table;
    CountSelectedIs(db, c, envs);
    JoinAllIs(db, tables, q.table, row, joins, filterDeleted);
    NotFromItself(q.table, joins);
    if !c.distinct { ToOneJoins(db, tables, q.table, row, joins, filterDeleted); }
    forall env ensures Selected(db, c, env) <==>
                         MeetsAll(db, q, env) && (filterDeleted ==> ValueAt(env, q.table, "_status") != Text("deleted"))
    {
      SelectedMeans(db, q, counting, filterDeleted, env);
    }
    hide Selected, MeetsAll, JoinAll, WellJoined, Compilation;
    forall env | LeftJoined(tables, q.table, row, joins, filterDeleted, env)
      ensures ValueAt(env, q.table, "_status") == Cell(Some(row), "_status")
    {
    }
  }

  lemma UniqueRows(tables: Tables, table: string)
    requires UniqueIds(tables)
    ensures NoRepeats(RowsOf(tables, table))
  {
  }

  /**
   * A select answers each matching live main row exactly once, and nothing
   * else, through to-many and nested joins.
   */
  lemma AnswersEachMatchOnce(db: Sqlite, q: Query, counting: bool, filterDeleted: bool, tables: Tables)
    requires Compilation(q, counting, filterDeleted).Some? && WellJoined(q.table, Joins(q).value) && UniqueIds(tables)
    ensures var answer := Answer(db, Compilation(q, counting, filterDeleted).value, tables);
            && NoRepeats(answer)
            && forall row :: row in answer <==>
                 row in RowsOf(tables, q.table) && Matches(db, q, Joins(q).value, filterDeleted, tables, row)
  {
    var c := Compilation(q, counting, filterDeleted).value;
    MultiplicitiesMean(db, q, counting, filterDeleted, tables);
    UniqueRows(tables, q.table);
    hide Matches, Multiplicity, WellJoined, UniqueIds, Compilation, Plain, Distinct;
    var rows := RowsOf(tables, q.table);
    PlainIs(db, c, tables, rows);
    DistinctIs(Plain(db, c, tables, rows));
  }

  lemma MultiplicitiesMean(db: Sqlite, q: Query, counting: bool, filterDeleted: bool, tables: Tables)
    requires Compilation(q, counting, filterDeleted).Some? && WellJoined(q.table, Joins(q).value) && UniqueIds(tables)
    ensures var c := Compilation(q, counting, filterDeleted).value;
            && c.table == q.table
            && forall row ::
                 && (Multiplicity(db, c, tables, row) > 0 <==> Matches(db, q, Joins(q).value, filterDeleted, tables, row))
                 && (!c.distinct ==> Multiplicity(db, c, tables, row) <= 1)
  {
    var c := Compilation(q, counting, filterDeleted).value;
    forall row ensures (Multiplicity(db, c, tables, row) > 0 <==> Matches(db, q, Joins(q).value, filterDeleted, tables, row))
                       && (!c.distinct ==> Multiplicity(db, c, tables, row) <= 1)
    {
      MultiplicityMeans(db, q, counting, filterDeleted, tables, row);
    }
  }

  lemma {:induction false} IdsAre(rows: seq<Row>)
    ensures |Ids(rows)| == |rows|
    ensures forall i :: 0 <= i < |rows| ==> Ids(rows)[i] == Cell(Some(rows[i]), "id")
  {
    if |rows| > 0 { IdsAre(rows[..|rows| - 1]); }
  }

  ghost predicate IdsDecide(rows: seq<Row>) {
    forall a, b :: a in rows && b in rows && Cell(Some(a), "id") == Cell(Some(b), "id") ==> a == b
  }

  /** Where the id decides the row, counting distinct ids counts distinct rows. */
  lemma {:induction false} DistinctIdsCount(rows: seq<Row>)
    requires IdsDecide(rows)
    ensures |Distinct(Ids(rows))| == |Distinct(rows)|
  {
    hide Cell;
    if |rows| > 0 {
      var prefix, last := rows[..|rows| - 1], rows[|rows| - 1];
      assert rows == prefix + [last];
      DistinctIdsCount(prefix);
      IdKnown(prefix, last);
      DistinctIs(prefix);
      DistinctIs(Ids(prefix));
      var ids := Ids(rows);
      assert ids[..|ids| - 1] == Ids(prefix) && ids[|ids| - 1] == Cell(Some(last), "id");
    }
  }

  lemma IdKnown(prefix: seq<Row>, last: Row)
    requires IdsDecide(prefix + [last])
    ensures Cell(Some(last), "id") in Ids(prefix) <==> last in prefix
  {
    IdsAre(prefix);
    hide Cell;
    if Cell(Some(last), "id") in Ids(prefix) {
      var i :| 0 <= i < |prefix| && Ids(prefix)[i] == Cell(Some(last), "id");
      assert prefix[i] in prefix + [last] && last in prefix + [last];
    }
    if last in prefix {
      var i :| 0 <= i < |prefix| && prefix[i] == last;
      assert Ids(prefix)[i] in Ids(prefix);
    }
  }

  /** Count mode returns the number of rows the select returns. */
  lemma CountAgreesWithSelect(db: Sqlite, q: Query, filterDeleted: bool, tables: Tables)
    requires Compilation(q, true, filterDeleted).Some? && UniqueIds(tables)
    ensures Compilation(q, false, filterDeleted).Some?
    ensures Count(db, Compilation(q, true, filterDeleted).value, tables)
              == |Answer(db, Compilation(q, false, filterDeleted).value, tables)|
  {
    CompilationAgrees(q, filterDeleted);
    hide Compilation, Plain, Distinct, Ids;
    var counting := Compilation(q, true, filterDeleted).value;
    var selecting := Compilation(q, false, filterDeleted).value;
    var rows := RowsOf(tables, q.table);
    SamePlain(db, counting, selecting, tables, rows);
    PlainIdsDecide(db, counting, tables, q.table);
    DistinctIdsCount(Plain(db, counting, tables, rows));
  }

  lemma CompilationAgrees(q: Query, filterDeleted: bool)
    requires Compilation(q, true, filterDeleted).Some?
    ensures Compilation(q, false, filterDeleted).Some?
    ensures Compilation(q, false, filterDeleted).value == Compilation(q, true, filterDeleted).value.(counting := false)
    ensures Compilation(q, true, filterDeleted).value.table == q.table
  {
  }

  lemma PlainIdsDecide(db: Sqlite, c: Compiled, tables: Tables, table: string)
    requires UniqueIds(tables)
    ensures IdsDecide(Plain(db, c, tables, RowsOf(tables, table)))
  {
    var rows := RowsOf(tables, table);
    PlainIs(db, c, tables, rows);
    forall a, b | a in rows && b in rows && Cell(Some(a), "id") == Cell(Some(b), "id") ensures a == b {
      var i :| 0 <= i < |rows| && rows[i] == a;
      var j :| 0 <= j < |rows| && rows[j] == b;
    }
  }

  lemma {:induction false} SamePlain(db: Sqlite, a: Compiled, b: Compiled, tables: Tables, rows: seq<Row>)
    requires b == a.(counting := b.counting)
    ensures Plain(db, a, tables, rows) == Plain(db, b, tables, rows)
  {
    if |rows| > 0 {
      SamePlain(db, a, b, tables, rows[..|rows| - 1]);
      SameCount(db, a, b, JoinAll(db, tables, a.table, rows[|rows| - 1], a.joins));
    }
  }

  lemma {:induction false} SameCount(db: Sqlite, a: Compiled, b: Compiled, envs: seq<Env>)
    requires b == a.(counting := b.counting)
    ensures CountSelected(db, a, envs) == CountSelected(db, b, envs)
  {
    if |envs| > 0 { SameCount(db, a, b, envs[..|envs| - 1]); }
  }

  /**
   * Behind the conditions, exactly what take and skip state is left to bind:
   * the limit first, then the offset, and no offset without a limit.
   */
  lemma LimitBindsLast(db: Sqlite, q: Query, counting: bool, filterDeleted: bool, env: Env)
    requires Compilation(q, counting, filterDeleted).Some?
    ensures var c := Compilation(q, counting, filterDeleted).value;
            var left := Eval(db, env, AndExpr(c.where), c.args).1;
            match q.description.take
            case None => !c.limit && !c.offset && left == []
            case Some(n) =>
              c.limit && match q.description.skip
                         case None => !c.offset && left == [Number(n as real)]
                         case Some(m) => c.offset && left == [Number(n as real), Number(m as real)]
  {
    WhereMeans(db, q, counting, filterDeleted, env);
    hide Eval;
  }

  // ----- order and page -----

  /** From the skip-th of all rows on, take many of them, or as many as there are. */
  ghost predicate IsPage(all: seq<Row>, skip: nat, take: Option<nat>, out: seq<Row>) {
    var rest := if skip <= |all| then |all| - skip else 0;
    && |out| == (if take.Some? && take.value < rest then take.value else rest)
    && forall i :: 0 <= i < |out| ==> out[i] == all[skip + i]
  }

  /** Where the page begins; the builders refuse a skip without a take. */
  function SkipOf(d: Description): nat {
    if d.take.Some? && d.skip.Some? then d.skip.value else 0
  }

  /**
   * An answer to a query: its matching live rows, each once, in an order its
   * sort columns allow, from skip on, take many.
   */
  ghost predicate AnswersQuery(db: Sqlite, q: Query, joins: seq<Association>, filterDeleted: bool, tables: Tables, out: seq<Row>) {
    exists all: seq<Row> :: IsWhole(db, q, joins, filterDeleted, tables, all) && IsPage(all, SkipOf(q.description), q.description.take, out)
  }

  ghost predicate IsWhole(db: Sqlite, q: Query, joins: seq<Association>, filterDeleted: bool, tables: Tables, all: seq<Row>) {
    && NoRepeats(all) && OrderedBy(db, q.description.sortBy, all)
    && forall row :: row in all <==> row in RowsOf(tables, q.table) && Matches(db, q, joins, filterDeleted, tables, row)
  }

  lemma {:induction false} CountsOfNoRepeats<T>(items: seq<T>)
    ensures NoRepeats(items) <==> forall x :: x in items ==> multiset(items)[x] == 1
  {
    if |items| > 0 {
      var before, last := items[..|items| - 1], items[|items| - 1];
      assert items == before + [last];
      CountsOfNoRepeats(before);
      if NoRepeats(items) {
        forall x | x in before ensures x != last {
          var i :| 0 <= i < |before| && before[i] == x;
          assert items[i] != items[|items| - 1];
        }
      }
      if forall x :: x in items ==> multiset(items)[x] == 1 {
        forall x | x in before ensures x != last && multiset(before)[x] == 1 {
          assert x in items && multiset(items)[x] == multiset(before)[x] + if x == last then 1 else 0;
          assert x in multiset(before);
        }
        forall i, j | 0 <= i < j < |items| ensures items[i] != items[j] {
          assert i < |before| && items[i] == before[i] && before[i] in before;
        }
      }
    }
  }

  /** Two lists without repetition hold the same rows exactly when one is a rearrangement of the other. */
  lemma SameRowsRearrange<T>(a: seq<T>, b: seq<T>)
    requires NoRepeats(b)
    ensures multiset(a) == multiset(b) <==> NoRepeats(a) && forall x :: x in a <==> x in b
  {
    hide NoRepeats;
    CountsOfNoRepeats(a);
    CountsOfNoRepeats(b);
    if multiset(a) == multiset(b) {
      forall x ensures x in a <==> x in b {
        assert x in a <==> x in multiset(a);
        assert x in b <==> x in multiset(b);
      }
    }
    if NoRepeats(a) && forall x :: x in a <==> x in b {
      forall x ensures multiset(a)[x] == multiset(b)[x] {
        assert x in a <==> x in multiset(a);
        assert x in b <==> x in multiset(b);
      }
    }
  }

  /** The bound limit and offset cut exactly the page. */
  lemma PageMeans(db: Sqlite, q: Query, counting: bool, filterDeleted: bool, all: seq<Row>, out: seq<Row>)
    requires Compilation(q, counting, filterDeleted).Some?
    ensures var c := Compilation(q, counting, filterDeleted).value;
            out == Page(c, all, Eval(db, map[], AndExpr(c.where), c.args).1)
            <==> IsPage(all, SkipOf(q.description), q.description.take, out)
  {
    LimitBindsLast(db, q, counting, filterDeleted, map[]);
    hide Compilation, Eval;
    var c := Compilation(q, counting, filterDeleted).value;
    var page := Page(c, all, Eval(db, map[], AndExpr(c.where), c.args).1);
    assert IsPage(all, SkipOf(q.description), q.description.take, page);
    if IsPage(all, SkipOf(q.description), q.description.take, out) { assert out == page; }
  }

  /**
   * What SQLite may answer to a compiled select is exactly what the query
   * asks for: the matching rows once each, sorted, from skip on, take many.
   */
  lemma SelectAnswersQuery(db: Sqlite, q: Query, joins: seq<Association>, filterDeleted: bool, tables: Tables, r: SqlResult)
    requires Compilation(q, false, filterDeleted).Some? && ResolveTo(q, joins) && WellJoined(q.table, joins) && UniqueIds(tables)
    ensures MayAnswer(db, Compilation(q, false, filterDeleted).value, tables, r)
            <==> r.Selection? && AnswersQuery(db, q, joins, filterDeleted, tables, r.rows)
  {
    JoinsIff(q, joins);
    var c := Compilation(q, false, filterDeleted).value;
    assert !c.counting && c.sortBy == q.description.sortBy;
    AnswersEachMatchOnce(db, q, false, filterDeleted, tables);
    hide Compilation, Answer, Matches, ResolveTo, WellJoined, UniqueIds, OrderedBy, Page, IsPage, Eval, NoRepeats;
    if r.Selection? {
      forall all: seq<Row>
        ensures multiset(all) == multiset(Answer(db, c, tables)) && OrderedBy(db, c.sortBy, all)
                <==> IsWhole(db, q, joins, filterDeleted, tables, all)
        ensures r.rows == Page(c, all, Eval(db, map[], AndExpr(c.where), c.args).1)
                <==> IsPage(all, SkipOf(q.description), q.description.take, r.rows)
      {
        SameRowsRearrange(all, Answer(db, c, tables));
        PageMeans(db, q, false, filterDeleted, all, r.rows);
      }
    }
  }

  lemma {:induction false} NoRepeatsSize(rows: seq<Row>, all: set<Row>)
    requires NoRepeats(rows) && forall row :: row in rows <==> row in all
    ensures |rows| == |all|
  {
    if |rows| > 0 {
      var before, last := rows[..|rows| - 1], rows[|rows| - 1];
      assert rows == before + [last];
      forall row ensures row in before <==> row in all - {last} {
        if row in before {
          var i :| 0 <= i < |before| && before[i] == row;
          assert rows[i] != rows[|rows| - 1];
        }
      }
      NoRepeatsSize(before, all - {last});
    } else {
      assert all == {};
    }
  }

  /** A count answers the number of matching live rows. */
  lemma CountAnswersQuery(db: Sqlite, q: Query, joins: seq<Association>, filterDeleted: bool, tables: Tables, r: SqlResult)
    requires Compilation(q, true, filterDeleted).Some? && ResolveTo(q, joins) && WellJoined(q.table, joins) && UniqueIds(tables)
    ensures MayAnswer(db, Compilation(q, true, filterDeleted).value, tables, r)
            <==> r == Counted(|set row | row in RowsOf(tables, q.table) && Matches(db, q, joins, filterDeleted, tables, row)|)
  {
    JoinsIff(q, joins);
    CountAgreesWithSelect(db, q, filterDeleted, tables);
    AnswersEachMatchOnce(db, q, false, filterDeleted, tables);
    assert Compilation(q, true, filterDeleted).value.counting;
    hide Compilation, Answer, Matches, ResolveTo, WellJoined, UniqueIds, Count, NoRepeats;
    NoRepeatsSize(Answer(db, Compilation(q, false, filterDeleted).value, tables),
                  set row | row in RowsOf(tables, q.table) && Matches(db, q, joins, filterDeleted, tables, row));
  }

  /** When a query compiles at all. */
  lemma CompilesIff(q: Query, counting: bool, filterDeleted: bool)
    ensures Compilation(q, counting, filterDeleted).Some? <==>
            && !(counting && (q.description.take.Some? || q.description.skip.Some?))
            && exists joins :: ResolveTo(q, joins) && forall c :: c in q.description.where ==> OnTables(c) <= Targets(joins)
  {
    JoinsDecide(q);
    hide ResolveTo, Joins;
    forall c, joined: set<string> ensures Declared(c, joined) <==> OnTables(c) <= joined {
      DeclaredIs(c, joined);
    }
    hide Declared, OnTables;
  }
}
