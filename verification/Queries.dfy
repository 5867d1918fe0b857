/** SQL queries of the NDS-H shape, and when a plan answers one. */
module Queries {
  import opened Grouping
  import opened Relational
  import opened Schema
  import opened Sequences
  import opened Tables
  import opened Values

  /** select keys, aggregates from the cross product where all conjuncts hold group by keys, over the
      stored columns and the computed ones. */
  datatype Query = Query(from: seq<TableId>, conjuncts: seq<Expr>, compute: seq<(ColName, Expr)>,
                         keys: set<ColName>, requests: seq<Request>)

  /** The row with the computed columns added; each is computed from the stored columns. */
  function Extend(e: Env, compute: seq<(ColName, Expr)>): Env {
    if compute == [] then e
    else
      var last := compute[|compute| - 1];
      Extend(e, compute[..|compute| - 1])[last.0 := Eval(last.1, e)]
  }

  function Computer(compute: seq<(ColName, Expr)>): Env -> Env {
    e => Extend(e, compute)
  }

  function Computed(compute: seq<(ColName, Expr)>): set<ColName> {
    set x | x in compute :: x.0
  }

  /** What the SQL text means: a set of named rows, one per group. */
  function SqlAnswer(q: Query, db: Database): set<Env>
    requires forall t: TableId :: t in db
  {
    Groups(Map(Computer(q.compute), SqlRows(q.from, q.conjuncts, db)), q.keys, q.requests, false)
  }

  // ----- stored rows -----

  /** The columns hold no null. */
  ghost predicate NonNullOn(db: Database, cols: set<ColName>) {
    forall t, e, c :: t in db && e in db[t] && c in e && c in cols ==> e[c] != Null
  }

  lemma StoredCell(e: Env, from: seq<TableId>, db: Database, c: ColName) returns (row: Env)
    requires WellFormed(db) && Stored(e, from, db) && c in Columns(c.table) && c.table in from
    ensures row in db[c.table] && c in row && c in e && e[c] == row[c]
  {
    var i :| 0 <= i < |from| && from[i] == c.table;
    row := Restrict(e, Columns(from[i]));
    assert row in db[from[i]];
    assert c in Columns(from[i]);
  }

  lemma StoredNonNull(e: Env, from: seq<TableId>, db: Database, cols: set<ColName>)
    requires WellFormed(db) && Stored(e, from, db) && NonNullOn(db, cols)
    ensures forall c :: c in cols && c in Columns(c.table) && c.table in from ==> c in e && e[c] != Null
  {
    forall c | c in cols && c in Columns(c.table) && c.table in from ensures c in e && e[c] != Null {
      var row := StoredCell(e, from, db, c);
    }
  }

  lemma SqlRowsStored(from: seq<TableId>, conjuncts: seq<Expr>, db: Database, e: Env)
    requires WellFormed(db) && Distinct(from) && e in SqlRows(from, conjuncts, db)
    ensures e.Keys == ColumnsOf(from) && Stored(e, from, db) && Where(conjuncts, e)
  {
    CrossKeyed(from, db);
    CrossCount(from, db, e);
    assert e in multiset(Cross(from, db));
    WaysStored(e, from, db);
  }

  // ----- computed columns and projections -----

  lemma {:induction false} ExtendKeys(e: Env, compute: seq<(ColName, Expr)>)
    ensures Extend(e, compute).Keys == e.Keys + Computed(compute)
  {
    if compute != [] {
      var init, last := compute[..|compute| - 1], compute[|compute| - 1];
      ExtendKeys(e, init);
      assert compute == init + [last];
      assert Computed(compute) == Computed(init) + {last.0};
    }
  }

  lemma {:induction false} ExtendProjected(e: Env, compute: seq<(ColName, Expr)>, cols: set<ColName>)
    requires forall i :: 0 <= i < |compute| ==> Mentions(compute[i].1) <= cols
    ensures Extend(Restrict(e, cols), compute) == Restrict(Extend(e, compute), cols + Computed(compute))
    decreases |compute|
  {
    if compute == [] {
      assert Computed(compute) == {};
      assert cols + {} == cols;
    } else {
      var init, last := compute[..|compute| - 1], compute[|compute| - 1];
      assert forall i :: 0 <= i < |init| ==> init[i] == compute[i];
      ExtendProjected(e, init, cols);
      EvalLocal(last.1, e, cols);
      assert compute == init + [last];
      assert cols + Computed(compute) == cols + Computed(init) + {last.0};
    }
  }

  /** What a plan must deliver for a query: every column the query computes with. */
  ghost predicate DeliversInputs(p: Plan, q: Query) {
    && (forall i :: 0 <= i < |q.compute| ==> Mentions(q.compute[i].1) <= OutColumns(p))
    && q.keys <= OutColumns(p) + Computed(q.compute)
    && (forall i :: 0 <= i < |q.requests| ==> q.requests[i].column in OutColumns(p) + Computed(q.compute))
  }

  lemma ExtendAll(rows: seq<Env>, compute: seq<(ColName, Expr)>, cols: set<ColName>)
    requires forall i :: 0 <= i < |compute| ==> Mentions(compute[i].1) <= cols
    ensures Map(Computer(compute), Map(Projector(cols), rows))
         == Map(Projector(cols + Computed(compute)), Map(Computer(compute), rows))
  {
    var got := Map(Computer(compute), Map(Projector(cols), rows));
    var want := Map(Projector(cols + Computed(compute)), Map(Computer(compute), rows));
    forall i | 0 <= i < |rows| ensures got[i] == want[i] {
      ExtendProjected(rows[i], compute, cols);
    }
  }

  lemma RestrictTwice(e: Env, a: set<ColName>, b: set<ColName>)
    requires a <= b
    ensures Restrict(Restrict(e, b), a) == Restrict(e, a)
  {
  }

  lemma ProjectedGroups(p: Plan, q: Query, db: Database)
    requires WellFormed(db) && Resolves(p) && DeliversInputs(p, q)
    ensures Groups(Map(Computer(q.compute), ProjectedRows(p, db)), q.keys, q.requests, true)
         == Groups(Map(Computer(q.compute), Rows(p, db)), q.keys, q.requests, true)
  {
    var cols := OutColumns(p) + Computed(q.compute);
    var rows, whole := Rows(p, db), Map(Computer(q.compute), Rows(p, db));
    ProjectionPushdown(p, db);
    ExtendAll(rows, q.compute, OutColumns(p));
    RowsKeyed(p, db);
    OutColumnsStored(p);
    forall e | e in whole ensures q.keys <= e.Keys && Restrict(Projector(cols)(e), q.keys) == Restrict(e, q.keys) {
      var i :| 0 <= i < |whole| && whole[i] == e;
      assert rows[i] in rows;
      ExtendKeys(rows[i], q.compute);
      RestrictTwice(e, q.keys, cols);
    }
    assert KeepsColumns(Projector(cols), whole, q.keys, q.requests);
    GroupsMap(Projector(cols), whole, q.keys, q.requests, true);
  }

  /** No group key of the query is null. */
  ghost predicate KeysNonNull(q: Query, db: Database)
    requires forall t: TableId :: t in db
  {
    forall e :: e in SqlRows(q.from, q.conjuncts, db) ==> NullFree(Restrict(Extend(e, q.compute), q.keys))
  }

  lemma {:induction false} ExtendOther(e: Env, compute: seq<(ColName, Expr)>, c: ColName)
    requires c !in Computed(compute) && c in e
    ensures c in Extend(e, compute) && Extend(e, compute)[c] == e[c]
  {
    if compute != [] {
      var init, last := compute[..|compute| - 1], compute[|compute| - 1];
      assert compute == init + [last];
      assert Computed(compute) == Computed(init) + {last.0};
      ExtendOther(e, init, c);
    }
  }

  /** Group keys that are stored columns without nulls. */
  lemma StoredKeysNonNull(q: Query, db: Database, cols: set<ColName>)
    requires WellFormed(db) && NonNullOn(db, cols) && Distinct(q.from)
    requires q.keys <= cols && q.keys <= ColumnsOf(q.from) && q.keys !! Computed(q.compute)
    ensures KeysNonNull(q, db)
  {
    forall e | e in SqlRows(q.from, q.conjuncts, db) ensures NullFree(Restrict(Extend(e, q.compute), q.keys)) {
      SqlRowsStored(q.from, q.conjuncts, db, e);
      StoredNonNull(e, q.from, db, cols);
      forall c | c in q.keys ensures c in Extend(e, q.compute) && Extend(e, q.compute)[c] != Null {
        ExtendOther(e, q.compute, c);
      }
    }
  }

  // ----- what a plan's program computes -----

  /** The combinations of FROM that pass the plan's tests, with the computed columns, grouped under cudf's
      null policy. */
  function Delivered(q: Query, test: Env -> bool, db: Database): set<Env>
    requires forall t: TableId :: t in db
  {
    Groups(Map(Computer(q.compute), Filter(test, Cross(q.from, db))), q.keys, q.requests, true)
  }

  /** Whatever the join order, the filter placement and the projections, and in whatever order the
      joins deliver their rows: computing columns on a plan's rows and grouping them gives what the
      plan's tests select. */
  lemma PlanDelivers(p: Plan, q: Query, test: Env -> bool, db: Database, rows: seq<Env>)
    requires WellFormed(db) && Resolves(p) && DeliversInputs(p, q)
    requires multiset(q.from) == multiset(Leaves(p)) && Distinct(q.from)
    requires SameTests(p, q.from, test, db)
    requires multiset(rows) == multiset(ProjectedRows(p, db))
    ensures Groups(Map(Computer(q.compute), rows), q.keys, q.requests, true) == Delivered(q, test, db)
  {
    var ext, selected := Computer(q.compute), Filter(test, Cross(q.from, db));
    MapPermutes(ext, rows, ProjectedRows(p, db));
    GroupsPermute(Map(ext, rows), Map(ext, ProjectedRows(p, db)), q.keys, q.requests, true);
    ProjectedGroups(p, q, db);
    PlanIsSelection(p, q.from, test, db);
    MapPermutes(ext, Rows(p, db), selected);
    GroupsPermute(Map(ext, Rows(p, db)), Map(ext, selected), q.keys, q.requests, true);
  }

  lemma NullKeyShows(rows: seq<Env>, e: Env, keys: set<ColName>, requests: seq<Request>)
    requires DistinctNames(keys, requests) && e in rows && !NullFree(Restrict(e, keys))
    ensures GroupRow(rows, Restrict(e, keys), requests) !in Groups(rows, keys, requests, true)
  {
    var key := Restrict(e, keys);
    GroupRowAnswers(rows, key, requests);
    forall other | other in rows && NullFree(Restrict(other, keys))
      ensures GroupRow(rows, Restrict(other, keys), requests) != GroupRow(rows, key, requests)
    {
      var key' := Restrict(other, keys);
      GroupRowAnswers(rows, key', requests);
      NamesApart(GroupRow(rows, key, requests), GroupRow(rows, key', requests), key, key', requests);
    }
  }

  lemma NamesApart(row: Env, row': Env, key: Env, key': Env, requests: seq<Request>)
    requires DistinctNames(key.Keys + key'.Keys, requests)
    requires row.Keys == key.Keys + Names(requests) && row'.Keys == key'.Keys + Names(requests)
    requires Restrict(row, key.Keys) == key && Restrict(row', key'.Keys) == key'
    ensures row == row' ==> key == key'
  {
    assert (key.Keys + key'.Keys) !! Names(requests);
    if row == row' {
      assert key.Keys == row.Keys - Names(requests);
      assert key'.Keys == row'.Keys - Names(requests);
    }
  }

  /** cudf leaves out groups with a null key, so on the same rows it answers the query exactly when no key
      is null. */
  lemma AnswersIff(q: Query, db: Database)
    requires WellFormed(db) && DistinctNames(q.keys, q.requests)
    ensures Delivered(q, WhereSelector(q.conjuncts), db) == SqlAnswer(q, db) <==> KeysNonNull(q, db)
  {
    var sql := SqlRows(q.from, q.conjuncts, db);
    var rows := Map(Computer(q.compute), sql);
    if KeysNonNull(q, db) {
      forall e | e in rows ensures NullFree(Restrict(e, q.keys)) {
        var i :| 0 <= i < |sql| && rows[i] == e;
        assert sql[i] in sql;
      }
    } else {
      var e :| e in sql && !NullFree(Restrict(Extend(e, q.compute), q.keys));
      var i :| 0 <= i < |sql| && sql[i] == e;
      assert rows[i] in rows;
      NullKeyShows(rows, rows[i], q.keys, q.requests);
    }
  }

  /** The columns hold no null in this row. */
  predicate NonNull(e: Env, cols: set<ColName>) {
    forall c :: c in cols ==> Get(e, c) != Null
  }

  /** No combination of stored rows passes the plan's tests with a null in these columns. */
  ghost predicate NoNullPasses(test: Env -> bool, cols: set<ColName>, from: seq<TableId>, db: Database)
    requires forall t: TableId :: t in db
  {
    forall e: Env :: e.Keys == ColumnsOf(from) && Stored(e, from, db) && test(e) ==> NonNull(e, cols)
  }

  /** WHERE is the plan's tests without nulls among the compared columns. */
  ghost predicate WhereIs(conjuncts: seq<Expr>, test: Env -> bool, cols: set<ColName>) {
    forall e: Env :: Where(conjuncts, e) <==> test(e) && NonNull(e, cols)
  }

  /** Where no null passes, the program answers the query exactly when no group key is null. */
  lemma DeliveredIsAnswer(q: Query, test: Env -> bool, cols: set<ColName>, db: Database)
    requires WellFormed(db) && Distinct(q.from) && DistinctNames(q.keys, q.requests)
    requires WhereIs(q.conjuncts, test, cols) && NoNullPasses(test, cols, q.from, db)
    ensures Delivered(q, test, db) == SqlAnswer(q, db) <==> KeysNonNull(q, db)
  {
    CrossKeyed(q.from, db);
    forall e | e in Cross(q.from, db) ensures test(e) == WhereSelector(q.conjuncts)(e) {
      CrossCount(q.from, db, e);
      assert e in multiset(Cross(q.from, db));
      WaysStored(e, q.from, db);
    }
    FilterSame(test, WhereSelector(q.conjuncts), Cross(q.from, db));
    AnswersIff(q, db);
  }

  lemma SameSize(a: seq<Env>, b: seq<Env>)
    requires |a| == |b| && forall e: Env :: multiset(a)[e] <= multiset(b)[e]
    ensures multiset(a) == multiset(b)
  {
    assert multiset(a) <= multiset(b);
    assert multiset(b) == multiset(a) + (multiset(b) - multiset(a));
    assert |multiset(b) - multiset(a)| == 0;
  }

  /** A plan that tests no more than WHERE delivers the selected columns of exactly the rows of FROM and
      WHERE, each as often, exactly when its conditions amount to WHERE. */
  lemma JoinedRowsMeetSql(p: Plan, from: seq<TableId>, conjuncts: seq<Expr>, db: Database)
    requires WellFormed(db) && Resolves(p)
    requires multiset(from) == multiset(Leaves(p)) && Distinct(from)
    requires forall e: Env :: Where(conjuncts, e) ==> Conditions(p, e)
    ensures multiset(ProjectedRows(p, db)) == multiset(Map(Projector(OutColumns(p)), SqlRows(from, conjuncts, db)))
       <==> SameTests(p, from, WhereSelector(conjuncts), db)
  {
    var rows, sql, f := Rows(p, db), SqlRows(from, conjuncts, db), Projector(OutColumns(p));
    ProjectionPushdown(p, db);
    PlanMeetsSql(p, from, conjuncts, db);
    if SameTests(p, from, WhereSelector(conjuncts), db) {
      MapPermutes(f, rows, sql);
    }
    if multiset(Map(f, rows)) == multiset(Map(f, sql)) {
      assert |rows| == |multiset(Map(f, rows))| == |multiset(Map(f, sql))| == |sql|;
      forall e: Env ensures multiset(sql)[e] <= multiset(rows)[e] {
        SqlWithinPlan(p, from, conjuncts, db, e);
      }
      SameSize(sql, rows);
    }
  }

  lemma SqlWithinPlan(p: Plan, from: seq<TableId>, conjuncts: seq<Expr>, db: Database, e: Env)
    requires WellFormed(db) && Resolves(p)
    requires multiset(from) == multiset(Leaves(p)) && Distinct(from)
    requires Where(conjuncts, e) ==> Conditions(p, e)
    ensures multiset(SqlRows(from, conjuncts, db))[e] <= multiset(Rows(p, db))[e]
  {
    if e.Keys == ColumnsOf(from) {
      SelectionCount(p, from, WhereSelector(conjuncts), db, e);
    } else {
      OtherColumnsNever(p, from, WhereSelector(conjuncts), db, e);
    }
  }

  /** The joined rows of a program are those of FROM and WHERE exactly when no combination of stored rows
      passes its tests with a null in a compared column. */
  lemma NullsDecide(p: Plan, leaves: seq<TableId>, q: Query, test: Env -> bool, cols: set<ColName>, db: Database)
    requires WellFormed(db) && Resolves(p)
    requires Leaves(p) == leaves && multiset(q.from) == multiset(leaves) && Distinct(q.from)
    requires WhereIs(q.conjuncts, test, cols) && forall e: Env :: Conditions(p, e) <==> test(e)
    ensures multiset(ProjectedRows(p, db)) == multiset(Map(Projector(OutColumns(p)), SqlRows(q.from, q.conjuncts, db)))
       <==> NoNullPasses(test, cols, q.from, db)
  {
    JoinedRowsMeetSql(p, q.from, q.conjuncts, db);
    if NoNullPasses(test, cols, q.from, db) {
      forall e: Env | e.Keys == ColumnsOf(q.from) && Stored(e, q.from, db)
        ensures Conditions(p, e) <==> WhereSelector(q.conjuncts)(e)
      {
      }
    }
    if SameTests(p, q.from, WhereSelector(q.conjuncts), db) {
      forall e: Env | e.Keys == ColumnsOf(q.from) && Stored(e, q.from, db) && test(e) ensures NonNull(e, cols) {
        assert WhereSelector(q.conjuncts)(e);
      }
    }
  }

  lemma ColumnsFrom(cols: set<ColName>, from: seq<TableId>)
    requires forall c :: c in cols ==> c.table in from && c.index < Width(c.table)
    ensures cols <= ColumnsOf(from)
  {
    forall c | c in cols ensures c in ColumnsOf(from) {
      assert c in Columns(c.table);
    }
  }

  /** Without nulls in the compared columns none passes. */
  lemma CleanColumns(test: Env -> bool, cols: set<ColName>, from: seq<TableId>, db: Database)
    requires WellFormed(db) && NonNullOn(db, cols) && cols <= ColumnsOf(from)
    ensures NoNullPasses(test, cols, from, db)
  {
    forall e: Env | e.Keys == ColumnsOf(from) && Stored(e, from, db) ensures NonNull(e, cols) {
      StoredNonNull(e, from, db, cols);
    }
  }

  lemma BothKept(x: Expr, y: Expr, e: Env)
    ensures Keeps(Bin(LOGICAL_AND, x, y), e) <==> Keeps(x, e) && Keeps(y, e)
  {
  }

  function Equals(a: ColName, b: ColName): Expr {
    Bin(EQUAL, Col(a), Col(b))
  }

  /** What an equality of SQL tests: unlike a join key, it does not hold between nulls. */
  lemma EqualsKeeps(a: ColName, b: ColName, e: Env)
    ensures Keeps(Equals(a, b), e) <==> Get(e, a) != Null && Get(e, a) == Get(e, b)
  {
    assert Eval(Col(a), e) == Get(e, a) && Eval(Col(b), e) == Get(e, b);
  }

  lemma MatchesOne(a: ColName, b: ColName, e: Env)
    ensures Matches(Zip([a], [b]), e) <==> Get(e, a) == Get(e, b)
  {
    assert Zip([a], [b])[0] == (a, b);
  }

  lemma MatchesTwo(a: ColName, b: ColName, c: ColName, d: ColName, e: Env)
    ensures Matches(Zip([a, c], [b, d]), e) <==> Get(e, a) == Get(e, b) && Get(e, c) == Get(e, d)
  {
    assert Zip([a, c], [b, d])[0] == (a, b) && Zip([a, c], [b, d])[1] == (c, d);
  }

  lemma JoinConditions(l: Plan, r: Plan, a: ColName, b: ColName, e: Env)
    ensures Conditions(Join(l, r, Zip([a], [b])), e) <==> Conditions(l, e) && Conditions(r, e) && Get(e, a) == Get(e, b)
  {
    MatchesOne(a, b, e);
  }

  lemma DisjointLeaves(l: Plan, r: Plan)
    requires Elements(Leaves(l)) !! Elements(Leaves(r))
    ensures AllColumns(l) !! AllColumns(r)
  {
    LeavesColumns(l);
    LeavesColumns(r);
    forall c | c in AllColumns(l) ensures c !in AllColumns(r) {
      assert c.table in Elements(Leaves(l));
    }
  }

  /** No filter. */
  const NO_PRED := Literal(Bool(true))

  // ----- following a plan with tables -----

  /** The table holds the rows of the plan, in some order, under the plan's column names. */
  ghost predicate Delivers(names: seq<ColName>, rows: seq<Env>, p: Plan, db: Database)
    requires forall t: TableId :: t in db
  {
    Resolves(p) && Elements(names) == OutColumns(p) && multiset(rows) == multiset(ProjectedRows(p, db))
  }

  lemma {:induction false} ProjectedKeyed(p: Plan, db: Database)
    requires WellFormed(db) && Resolves(p)
    ensures AllKeyed(ProjectedRows(p, db), OutColumns(p))
  {
    ProjectionPushdown(p, db);
    RowsKeyed(p, db);
    OutColumnsStored(p);
    var rows := Rows(p, db);
    forall e | e in ProjectedRows(p, db) ensures e.Keys == OutColumns(p) {
      var i :| 0 <= i < |rows| && Map(Projector(OutColumns(p)), rows)[i] == e;
      assert rows[i] in rows;
    }
  }

  lemma NamesStored(names: seq<ColName>, rows: seq<Env>, p: Plan, db: Database, c: ColName)
    requires WellFormed(db) && Delivers(names, rows, p, db) && c in names
    ensures c.table in Leaves(p)
  {
    OutColumnsStored(p);
    LeavesColumns(p);
    assert c in Elements(names);
  }

  /** One apply_inner_join carries out one join node. */
  lemma JoinDelivers(n1: seq<ColName>, r1: seq<Env>, p1: Plan, n2: seq<ColName>, r2: seq<Env>, p2: Plan,
                     on: seq<(ColName, ColName)>, out: seq<Env>, db: Database)
    requires WellFormed(db) && Delivers(n1, r1, p1, db) && Delivers(n2, r2, p2, db)
    requires Resolves(Join(p1, p2, on))
    requires multiset(out) == multiset(JoinRows(r1, r2, on))
    ensures Delivers(n1 + n2, out, Join(p1, p2, on), db)
  {
    ProjectedKeyed(p1, db);
    ProjectedKeyed(p2, db);
    OutColumnsStored(p1);
    OutColumnsStored(p2);
    JoinPermutes(ProjectedRows(p1, db), ProjectedRows(p2, db), r1, r2, on, OutColumns(p1), OutColumns(p2));
    assert Elements(n1 + n2) == Elements(n1) + Elements(n2);
  }

  /** A table that holds the rows of a plan. */
  ghost predicate Holds(t: TableWithNames, p: Plan, db: Database)
    requires forall t: TableId :: t in db
    reads t
  {
    t.Valid() && Delivers(t.colNames, t.Envs(), p, db)
  }

  ghost predicate Readable(t: TableId, columns: seq<ColName>) {
    columns != [] && Distinct(columns) && forall i :: 0 <= i < |columns| ==> columns[i] in Columns(t)
  }

  ghost predicate Joinable(l: Plan, r: Plan, leftOn: seq<ColName>, rightOn: seq<ColName>) {
    && Elements(Leaves(l)) !! Elements(Leaves(r))
    && |leftOn| == |rightOn| > 0
    && forall i :: 0 <= i < |leftOn| ==> leftOn[i] in OutColumns(l) && rightOn[i] in OutColumns(r)
  }

  lemma SchemaColumns(t: TableId)
    ensures Distinct(SchemaList(t)) && Elements(SchemaList(t)) == Columns(t)
  {
    forall c | c in Columns(t) ensures c in SchemaList(t) {
      assert SchemaList(t)[c.index] == c;
    }
  }

  /** One read_parquet with projection and filter, and the scan it carries out. */
  method Read(db: Database, t: TableId, columns: seq<ColName>, predicate_: Ast)
    returns (out: TableWithNames, ghost p: Plan)
    requires WellFormed(db)
    requires Readable(t, columns)
    requires InRange(predicate_, |columns|)
    ensures fresh(out) && Holds(out, p, db) && out.colNames == columns
    ensures p == Scan(t, Elements(columns), Named(predicate_, columns))
    ensures Leaves(p) == [t] && OutColumns(p) == Elements(columns)
  {
    SchemaColumns(t);
    ReadsAll(SchemaList(t), columns);
    out := ReadParquet(db[t], SchemaList(t), columns, predicate_);
    p := Scan(t, Elements(columns), Named(predicate_, columns));
    EvaluateByName(predicate_, columns, seq(|columns|, _ => Null));
  }

  /** Masking a whole scan is a scan with a filter. */
  lemma MaskDelivers(names: seq<ColName>, rows: seq<Env>, t: TableId, cols: set<ColName>, x: Expr, db: Database)
    requires WellFormed(db) && Delivers(names, rows, Scan(t, cols, NO_FILTER), db) && Mentions(x) <= cols
    ensures Delivers(names, Filter(Selector(x), rows), Scan(t, cols, x), db)
  {
    FilterAll(Selector(NO_FILTER), db[t]);
    FilterPermutes(Selector(x), rows, ProjectedRows(Scan(t, cols, NO_FILTER), db));
    forall e | e in db[t] ensures Selector(x)(Projector(cols)(e)) == Selector(x)(e) {
      EvalLocal(x, e, cols);
    }
    FilterAfterMap(Projector(cols), Selector(x), Selector(x), db[t]);
  }

  /** One apply_inner_join, which does not fail here, and the join it carries out. */
  method JoinStep(left: TableWithNames, right: TableWithNames, leftOn: seq<ColName>, rightOn: seq<ColName>,
                  ghost pl: Plan, ghost pr: Plan, ghost db: Database)
    returns (out: TableWithNames, ghost p: Plan)
    requires WellFormed(db) && Holds(left, pl, db) && Holds(right, pr, db)
    requires Joinable(pl, pr, leftOn, rightOn)
    ensures fresh(out) && Holds(out, p, db) && out.colNames == left.colNames + right.colNames
    ensures Leaves(p) == Leaves(pl) + Leaves(pr) && OutColumns(p) == OutColumns(pl) + OutColumns(pr)
    ensures p == Join(pl, pr, Zip(leftOn, rightOn))
  {
    p := Join(pl, pr, Zip(leftOn, rightOn));
    DisjointLeaves(pl, pr);
    OutColumnsStored(pl);
    OutColumnsStored(pr);
    var joined := ApplyInnerJoin(left, right, leftOn, rightOn);
    out := joined.value;
    JoinDelivers(left.colNames, left.Envs(), pl, right.colNames, right.Envs(), pr, Zip(leftOn, rightOn), out.Envs(),
        db);
  }
}
