/** Combinations of rows that pass a plan's tests with a null in a compared column: SQL leaves them out,
    and the program does not. What they do to the sums decides whether the program answers its query. */
module NullRows {
  import opened Grouping
  import opened Queries
  import opened Relational
  import opened Schema
  import opened Sequences
  import opened Values

  // ----- sums over the rows of a group -----

  /** The sum of `f` over the rows that pass `p` and belong to the group. */
  function SumIn(f: Value -> real, p: Env -> bool, ext: Env -> Env, key: Env, c: ColName, rows: seq<Env>): real {
    if rows == [] then 0.0
    else (if p(rows[0]) && InGroup(key)(ext(rows[0])) then f(Get(ext(rows[0]), c)) else 0.0)
         + SumIn(f, p, ext, key, c, rows[1..])
  }

  lemma {:induction false} GroupSum(f: Value -> real, p: Env -> bool, ext: Env -> Env, key: Env, c: ColName,
                                    rows: seq<Env>)
    ensures Total(f, GroupValues(Map(ext, Filter(p, rows)), key, c)) == SumIn(f, p, ext, key, c, rows)
  {
    if rows == [] {
      assert Map(ext, Filter(p, rows)) == [];
    } else {
      GroupSum(f, p, ext, key, c, rows[1..]);
      var rest := Map(ext, Filter(p, rows[1..]));
      if p(rows[0]) {
        var all := Map(ext, Filter(p, rows));
        assert Filter(p, rows) == [rows[0]] + Filter(p, rows[1..]);
        assert all[0] == ext(rows[0]) && all[1..] == rest;
        GroupValuesHead(all, key, c);
        TotalConcat(f, if InGroup(key)(ext(rows[0])) then [Get(ext(rows[0]), c)] else [], GroupValues(rest, key, c));
      } else {
        assert Filter(p, rows) == Filter(p, rows[1..]);
      }
    }
  }

  /** A row that the test lets into the group and WHERE does not. */
  predicate Added(test: Env -> bool, kept: Env -> bool, ext: Env -> Env, key: Env, e: Env) {
    test(e) && !kept(e) && InGroup(key)(ext(e))
  }

  /** Added rows that count more than nothing make the sum larger. */
  lemma {:induction false} SumGrows(f: Value -> real, test: Env -> bool, kept: Env -> bool, ext: Env -> Env, key: Env,
                                    c: ColName, rows: seq<Env>)
    requires forall e :: e in rows && kept(e) ==> test(e)
    requires forall e :: e in rows && Added(test, kept, ext, key, e) ==> f(Get(ext(e), c)) > 0.0
    ensures SumIn(f, test, ext, key, c, rows) >= SumIn(f, kept, ext, key, c, rows)
    ensures (exists e :: e in rows && Added(test, kept, ext, key, e)) ==>
              SumIn(f, test, ext, key, c, rows) > SumIn(f, kept, ext, key, c, rows)
  {
    if rows != [] {
      assert rows == [rows[0]] + rows[1..];
      assert rows[0] in rows;
      SumGrows(f, test, kept, ext, key, c, rows[1..]);
    }
  }

  lemma {:induction false} SumNotNegative(p: Env -> bool, ext: Env -> Env, key: Env, c: ColName, rows: seq<Env>)
    ensures SumIn(IsNumber, p, ext, key, c, rows) >= 0.0
  {
    if rows != [] {
      SumNotNegative(p, ext, key, c, rows[1..]);
    }
  }

  /** One added row with a positive value changes the group's sum. */
  lemma SumsDiffer(test: Env -> bool, kept: Env -> bool, ext: Env -> Env, key: Env, c: ColName, rows: seq<Env>, e: Env)
    requires forall r :: r in rows && kept(r) ==> test(r)
    requires forall r :: r in rows && Added(test, kept, ext, key, r) ==> IsPositive(Get(ext(r), c))
    requires e in rows && Added(test, kept, ext, key, e)
    ensures Aggregate(SUM, GroupValues(Map(ext, Filter(test, rows)), key, c))
         != Aggregate(SUM, GroupValues(Map(ext, Filter(kept, rows)), key, c))
  {
    GroupSum(Amount, test, ext, key, c, rows);
    GroupSum(Amount, kept, ext, key, c, rows);
    GroupSum(IsNumber, test, ext, key, c, rows);
    GroupSum(IsNumber, kept, ext, key, c, rows);
    SumGrows(Amount, test, kept, ext, key, c, rows);
    SumGrows(IsNumber, test, kept, ext, key, c, rows);
    SumNotNegative(kept, ext, key, c, rows);
  }

  predicate IsPositive(v: Value) {
    v.Num? && v.num > 0.0
  }

  // ----- groups without added rows -----

  lemma {:induction false} SameMembers(test: Env -> bool, kept: Env -> bool, ext: Env -> Env, key: Env, rows: seq<Env>)
    requires forall e :: e in rows && InGroup(key)(ext(e)) ==> test(e) == kept(e)
    ensures Filter(InGroup(key), Map(ext, Filter(test, rows))) == Filter(InGroup(key), Map(ext, Filter(kept, rows)))
  {
    if rows != [] {
      var e, rest := rows[0], rows[1..];
      assert e in rows;
      SameMembers(test, kept, ext, key, rest);
      HeadMember(test, ext, key, rows);
      HeadMember(kept, ext, key, rows);
    }
  }

  lemma HeadMember(p: Env -> bool, ext: Env -> Env, key: Env, rows: seq<Env>)
    requires rows != []
    ensures Filter(InGroup(key), Map(ext, Filter(p, rows)))
         == (if p(rows[0]) && InGroup(key)(ext(rows[0])) then [ext(rows[0])] else [])
            + Filter(InGroup(key), Map(ext, Filter(p, rows[1..])))
  {
    var head := if p(rows[0]) then [rows[0]] else [];
    MapConcat(ext, head, Filter(p, rows[1..]));
    FilterConcat(InGroup(key), Map(ext, head), Map(ext, Filter(p, rows[1..])));
    if p(rows[0]) {
      assert Map(ext, head) == [ext(rows[0])];
      assert [ext(rows[0])][1..] == [];
    } else {
      assert Map(ext, head) == [];
    }
  }

  lemma {:induction false} SameGroupRow(a: seq<Env>, b: seq<Env>, key: Env, requests: seq<Request>)
    requires Filter(InGroup(key), a) == Filter(InGroup(key), b)
    ensures GroupRow(a, key, requests) == GroupRow(b, key, requests)
  {
    if requests != [] {
      SameGroupRow(a, b, key, requests[..|requests| - 1]);
    }
  }

  // ----- one query -----

  function KeyOf(q: Query, e: Env): Env {
    Restrict(Extend(e, q.compute), q.keys)
  }

  /** Passes the tests with a null in a compared column, in a group that cudf delivers. */
  predicate Extra(q: Query, test: Env -> bool, cols: set<ColName>, e: Env) {
    test(e) && !NonNull(e, cols) && NullFree(KeyOf(q, e))
  }

  ghost predicate NoExtra(q: Query, test: Env -> bool, cols: set<ColName>, db: Database)
    requires forall t: TableId :: t in db
  {
    forall e: Env :: e.Keys == ColumnsOf(q.from) && Stored(e, q.from, db) ==> !Extra(q, test, cols, e)
  }

  /** Every such combination has a positive value to be summed. */
  ghost predicate ExtrasPay(q: Query, test: Env -> bool, cols: set<ColName>, c: ColName, db: Database)
    requires forall t: TableId :: t in db
  {
    forall e: Env :: e.Keys == ColumnsOf(q.from) && Stored(e, q.from, db) && Extra(q, test, cols, e) ==>
      IsPositive(Get(Extend(e, q.compute), c))
  }

  lemma CrossIsStored(from: seq<TableId>, db: Database, e: Env)
    requires WellFormed(db) && Distinct(from)
    ensures e in Cross(from, db) <==> e.Keys == ColumnsOf(from) && Stored(e, from, db)
  {
    CrossKeyed(from, db);
    if e.Keys == ColumnsOf(from) {
      CrossCount(from, db, e);
      WaysStored(e, from, db);
      assert e in Cross(from, db) <==> multiset(Cross(from, db))[e] > 0;
    }
  }

  lemma SameKey(q: Query, e: Env, other: Env)
    requires e.Keys == other.Keys
    ensures InGroup(KeyOf(q, e))(Extend(other, q.compute)) <==> KeyOf(q, other) == KeyOf(q, e)
  {
    ExtendKeys(e, q.compute);
    ExtendKeys(other, q.compute);
    var key, row := KeyOf(q, e), Extend(other, q.compute);
    assert key.Keys == row.Keys * q.keys;
    assert Restrict(row, key.Keys) == Restrict(row, q.keys);
  }

  /** Without extra combinations in it, a group is the same for the program and for SQL. */
  lemma SameGroupOf(q: Query, test: Env -> bool, cols: set<ColName>, db: Database, e: Env)
    requires WellFormed(db) && Distinct(q.from) && WhereIs(q.conjuncts, test, cols) && NoExtra(q, test, cols, db)
    requires e in Cross(q.from, db) && NullFree(KeyOf(q, e))
    ensures GroupRow(Map(Computer(q.compute), Filter(test, Cross(q.from, db))), KeyOf(q, e), q.requests)
         == GroupRow(Map(Computer(q.compute), SqlRows(q.from, q.conjuncts, db)), KeyOf(q, e), q.requests)
  {
    var cross, ext, kept, key := Cross(q.from, db), Computer(q.compute), WhereSelector(q.conjuncts), KeyOf(q, e);
    CrossKeyed(q.from, db);
    forall r | r in cross && InGroup(key)(ext(r)) ensures test(r) == kept(r) {
      SameKey(q, e, r);
      CrossIsStored(q.from, db, r);
    }
    SameMembers(test, kept, ext, key, cross);
    SameGroupRow(Map(ext, Filter(test, cross)), Map(ext, Filter(kept, cross)), key, q.requests);
  }

  lemma DeliversGroup(q: Query, test: Env -> bool, db: Database, e: Env)
    requires WellFormed(db) && e in Cross(q.from, db) && test(e) && NullFree(KeyOf(q, e))
    ensures GroupRow(Map(Computer(q.compute), Filter(test, Cross(q.from, db))), KeyOf(q, e), q.requests)
         in Delivered(q, test, db)
  {
    var rows := Filter(test, Cross(q.from, db));
    var i :| 0 <= i < |rows| && rows[i] == e;
    assert Map(Computer(q.compute), rows)[i] in Map(Computer(q.compute), rows);
  }

  lemma AnswersGroup(q: Query, db: Database, e: Env)
    requires WellFormed(db) && e in SqlRows(q.from, q.conjuncts, db)
    ensures GroupRow(Map(Computer(q.compute), SqlRows(q.from, q.conjuncts, db)), KeyOf(q, e), q.requests)
         in SqlAnswer(q, db)
  {
    var rows := SqlRows(q.from, q.conjuncts, db);
    var i :| 0 <= i < |rows| && rows[i] == e;
    assert Map(Computer(q.compute), rows)[i] in Map(Computer(q.compute), rows);
  }

  lemma DeliveredFrom(q: Query, test: Env -> bool, db: Database, r: Env) returns (e: Env)
    requires WellFormed(db) && r in Delivered(q, test, db)
    ensures e in Cross(q.from, db) && test(e) && NullFree(KeyOf(q, e))
    ensures r == GroupRow(Map(Computer(q.compute), Filter(test, Cross(q.from, db))), KeyOf(q, e), q.requests)
  {
    var rows := Filter(test, Cross(q.from, db));
    var all := Map(Computer(q.compute), rows);
    var m :| m in all && NullFree(Restrict(m, q.keys)) && r == GroupRow(all, Restrict(m, q.keys), q.requests);
    var i :| 0 <= i < |all| && all[i] == m;
    e := rows[i];
    assert e in rows;
  }

  lemma AnswersFrom(q: Query, db: Database, r: Env) returns (e: Env)
    requires WellFormed(db) && r in SqlAnswer(q, db)
    ensures e in SqlRows(q.from, q.conjuncts, db)
    ensures r == GroupRow(Map(Computer(q.compute), SqlRows(q.from, q.conjuncts, db)), KeyOf(q, e), q.requests)
  {
    var rows := SqlRows(q.from, q.conjuncts, db);
    var all := Map(Computer(q.compute), rows);
    var m :| m in all && r == GroupRow(all, Restrict(m, q.keys), q.requests);
    var i :| 0 <= i < |all| && all[i] == m;
    e := rows[i];
    assert e in rows;
  }

  /** Without extra combinations and null keys the program answers the query. */
  lemma NoExtraAnswers(q: Query, test: Env -> bool, cols: set<ColName>, db: Database)
    requires WellFormed(db) && Distinct(q.from) && WhereIs(q.conjuncts, test, cols)
    requires NoExtra(q, test, cols, db) && KeysNonNull(q, db)
    ensures Delivered(q, test, db) == SqlAnswer(q, db)
  {
    forall r | r in Delivered(q, test, db) ensures r in SqlAnswer(q, db) {
      var e := DeliveredFrom(q, test, db, r);
      CrossIsStored(q.from, db, e);
      assert WhereSelector(q.conjuncts)(e);
      SameGroupOf(q, test, cols, db, e);
      AnswersGroup(q, db, e);
    }
    forall r | r in SqlAnswer(q, db) ensures r in Delivered(q, test, db) {
      var e := AnswersFrom(q, db, r);
      assert Where(q.conjuncts, e);
      SameGroupOf(q, test, cols, db, e);
      DeliversGroup(q, test, db, e);
    }
  }

  /** Rows of different groups differ. */
  lemma GroupRowsApart(q: Query, a: seq<Env>, b: seq<Env>, key: Env, key': Env)
    requires DistinctNames(q.keys, q.requests) && key.Keys <= q.keys && key'.Keys <= q.keys
    requires GroupRow(a, key, q.requests) == GroupRow(b, key', q.requests)
    ensures key == key'
    ensures AnswersAll(GroupRow(a, key, q.requests), a, key, q.requests)
    ensures AnswersAll(GroupRow(b, key, q.requests), b, key, q.requests)
  {
    GroupRowAnswers(a, key, q.requests);
    GroupRowAnswers(b, key', q.requests);
    NamesApart(GroupRow(a, key, q.requests), GroupRow(b, key', q.requests), key, key', q.requests);
  }

  /** A null key that SQL groups is missing from what the program delivers. */
  lemma NullKeyMissing(q: Query, test: Env -> bool, db: Database, e: Env)
    requires WellFormed(db) && DistinctNames(q.keys, q.requests)
    requires e in SqlRows(q.from, q.conjuncts, db) && !NullFree(KeyOf(q, e))
    ensures Delivered(q, test, db) != SqlAnswer(q, db)
  {
    AnswersGroup(q, db, e);
    var row := GroupRow(Map(Computer(q.compute), SqlRows(q.from, q.conjuncts, db)), KeyOf(q, e), q.requests);
    if row in Delivered(q, test, db) {
      var other := DeliveredFrom(q, test, db, row);
      GroupRowsApart(q, Map(Computer(q.compute), SqlRows(q.from, q.conjuncts, db)),
                     Map(Computer(q.compute), Filter(test, Cross(q.from, db))), KeyOf(q, e), KeyOf(q, other));
    }
  }

  /** An extra combination shows in the sum of its group. */
  lemma ExtraShows(q: Query, test: Env -> bool, cols: set<ColName>, c: ColName, name: ColName, db: Database, e: Env)
    requires WellFormed(db) && Distinct(q.from) && DistinctNames(q.keys, q.requests)
    requires WhereIs(q.conjuncts, test, cols) && q.requests == [Request(c, SUM, name)]
    requires ExtrasPay(q, test, cols, c, db) && e in Cross(q.from, db) && Extra(q, test, cols, e)
    ensures Delivered(q, test, db) != SqlAnswer(q, db)
  {
    var cross, ext, kept, key := Cross(q.from, db), Computer(q.compute), WhereSelector(q.conjuncts), KeyOf(q, e);
    var delivered, answered := Map(ext, Filter(test, cross)), Map(ext, Filter(kept, cross));
    DeliversGroup(q, test, db, e);
    var row := GroupRow(delivered, key, q.requests);
    if row in SqlAnswer(q, db) {
      var other := AnswersFrom(q, db, row);
      GroupRowsApart(q, delivered, answered, key, KeyOf(q, other));
      AddedPay(q, test, cols, c, db, e);
      SumsDiffer(test, kept, ext, key, c, cross, e);
    }
  }

  lemma AddedPay(q: Query, test: Env -> bool, cols: set<ColName>, c: ColName, db: Database, e: Env)
    requires WellFormed(db) && Distinct(q.from) && WhereIs(q.conjuncts, test, cols)
    requires ExtrasPay(q, test, cols, c, db) && e in Cross(q.from, db) && Extra(q, test, cols, e)
    ensures Added(test, WhereSelector(q.conjuncts), Computer(q.compute), KeyOf(q, e), e)
    ensures forall r :: && r in Cross(q.from, db)
                        && Added(test, WhereSelector(q.conjuncts), Computer(q.compute), KeyOf(q, e), r) ==>
              IsPositive(Get(Computer(q.compute)(r), c))
  {
    CrossKeyed(q.from, db);
    SameKey(q, e, e);
    forall r | r in Cross(q.from, db) && Added(test, WhereSelector(q.conjuncts), Computer(q.compute), KeyOf(q, e), r)
      ensures IsPositive(Get(Computer(q.compute)(r), c))
    {
      SameKey(q, e, r);
      CrossIsStored(q.from, db, r);
    }
  }

  /** Where extra combinations have positive values, the program answers a query with one sum exactly when
      there is no extra combination and no group key of the query is null. */
  lemma SumsDecide(q: Query, test: Env -> bool, cols: set<ColName>, c: ColName, name: ColName, db: Database)
    requires WellFormed(db) && Distinct(q.from) && DistinctNames(q.keys, q.requests)
    requires WhereIs(q.conjuncts, test, cols) && q.requests == [Request(c, SUM, name)]
    requires ExtrasPay(q, test, cols, c, db)
    ensures Delivered(q, test, db) == SqlAnswer(q, db) <==> NoExtra(q, test, cols, db) && KeysNonNull(q, db)
  {
    if !KeysNonNull(q, db) {
      var e :| e in SqlRows(q.from, q.conjuncts, db) && !NullFree(KeyOf(q, e));
      NullKeyMissing(q, test, db, e);
    } else if !NoExtra(q, test, cols, db) {
      var e: Env :| e.Keys == ColumnsOf(q.from) && Stored(e, q.from, db) && Extra(q, test, cols, e);
      CrossIsStored(q.from, db, e);
      ExtraShows(q, test, cols, c, name, db, e);
    } else {
      NoExtraAnswers(q, test, cols, db);
    }
  }

  // ----- databases of one row per table -----

  const ALL_TABLES: set<TableId> := {CUSTOMER, LINEITEM, NATION, ORDERS, PART, PARTSUPP, REGION, SUPPLIER, DERIVED}

  lemma AllTables()
    ensures forall t: TableId :: t in ALL_TABLES
  {
    forall t: TableId ensures t in ALL_TABLES {
      match t case CUSTOMER => case LINEITEM => case NATION => case ORDERS => case PART => case PARTSUPP =>
      case REGION => case SUPPLIER => case DERIVED =>
    }
  }

  function OneRow(cell: ColName -> Value, t: TableId): Env {
    map c | c in Columns(t) :: cell(c)
  }

  function OneRowEach(cell: ColName -> Value): (db: Database)
    ensures forall t: TableId :: t in db && db[t] == [OneRow(cell, t)]
  {
    AllTables();
    map t | t in ALL_TABLES :: [OneRow(cell, t)]
  }

  /** The one combination of these rows. */
  function Combination(cell: ColName -> Value, from: seq<TableId>): Env {
    map c | c in ColumnsOf(from) :: cell(c)
  }

  lemma RowOfCombination(cell: ColName -> Value, from: seq<TableId>, t: TableId)
    requires t in from
    ensures Restrict(Combination(cell, from), Columns(t)) == OneRow(cell, t)
  {
    var e := Combination(cell, from);
    forall c | c in Columns(t) ensures c in e && e[c] == cell(c) {
    }
  }

  lemma CombinationStored(cell: ColName -> Value, from: seq<TableId>)
    ensures WellFormed(OneRowEach(cell))
    ensures Combination(cell, from).Keys == ColumnsOf(from)
    ensures Stored(Combination(cell, from), from, OneRowEach(cell))
  {
    var db, e := OneRowEach(cell), Combination(cell, from);
    forall i | 0 <= i < |from| ensures Restrict(e, Columns(from[i])) in db[from[i]] {
      RowOfCombination(cell, from, from[i]);
      assert db[from[i]][0] == OneRow(cell, from[i]);
    }
  }

  lemma CellOf(cell: ColName -> Value, from: seq<TableId>, c: ColName)
    requires c.table in from && c.index < Width(c.table)
    ensures c in Combination(cell, from) && Get(Combination(cell, from), c) == cell(c)
  {
    assert c in Columns(c.table);
  }

  lemma OneKey(q: Query, e: Env, c: ColName)
    requires q.keys == {c} && c !in Computed(q.compute) && c in e
    ensures NullFree(KeyOf(q, e)) <==> e[c] != Null
  {
    ExtendOther(e, q.compute, c);
    var key := KeyOf(q, e);
    assert key == map[c := e[c]];
    assert c in key && key[c] == e[c];
  }

  /** The two ways in which the one combination makes the program miss the answer. */
  lemma OneRowMisses(q: Query, test: Env -> bool, cols: set<ColName>, cell: ColName -> Value)
    requires var e := Combination(cell, q.from);
             Extra(q, test, cols, e) || (Where(q.conjuncts, e) && !NullFree(KeyOf(q, e)))
    requires Distinct(q.from)
    requires var db := OneRowEach(cell);
             Delivered(q, test, db) == SqlAnswer(q, db) <==> NoExtra(q, test, cols, db) && KeysNonNull(q, db)
    ensures Delivered(q, test, OneRowEach(cell)) != SqlAnswer(q, OneRowEach(cell))
  {
    var db, e := OneRowEach(cell), Combination(cell, q.from);
    CombinationStored(cell, q.from);
    CrossIsStored(q.from, db, e);
    if Where(q.conjuncts, e) {
      assert e in SqlRows(q.from, q.conjuncts, db);
    }
  }
}
