/** Query 5 (cpp/benchmarks/ndsh/q05.cpp): six tables, filters pushed into region and orders, and a
    left-deep chain of joins that never compares c_nationkey with s_nationkey. */
module Q05 {
  import opened Answers
  import opened Calendar
  import opened GroupBy
  import opened Grouping
  import opened NullRows
  import opened Queries
  import opened Relational
  import opened RevenueColumn
  import opened Schema
  import opened Sequences
  import opened Tables
  import opened Values

  // Day numbers of 1994-01-01 and 1995-01-01.
  const LOWER := 8766
  const UPPER := 9131

  // ----- the SQL text -----

  const IS_ASIA := Bin(EQUAL, Col(r_name), Lit(Text("ASIA")))
  const DATE_FROM := Bin(GREATER_EQUAL, Col(o_orderdate), Lit(Day(LOWER)))
  const DATE_BEFORE := Bin(LESS, Col(o_orderdate), Lit(Day(UPPER)))

  const SQL_FROM := [CUSTOMER, ORDERS, LINEITEM, SUPPLIER, NATION, REGION]
  const SQL_WHERE := [Equals(c_custkey, o_custkey), Equals(l_orderkey, o_orderkey), Equals(l_suppkey, s_suppkey),
                      Equals(c_nationkey, s_nationkey), Equals(s_nationkey, n_nationkey),
                      Equals(n_regionkey, r_regionkey), IS_ASIA, DATE_FROM, DATE_BEFORE]
  const GROUP_COLS := [n_name]
  const SQL := Query(SQL_FROM, SQL_WHERE, [(revenue, REVENUE)], Elements(GROUP_COLS), REQUESTS)

  /** The columns that are compared; SQL and cudf treat nulls in them differently. */
  const COMPARED := {c_custkey, o_custkey, l_orderkey, o_orderkey, l_suppkey, s_suppkey, c_nationkey, s_nationkey,
                     n_nationkey, n_regionkey, r_regionkey}

  lemma SqlTests(e: Env)
    ensures Where(SQL_WHERE, e) <==>
      && Keeps(Equals(c_custkey, o_custkey), e) && Keeps(Equals(l_orderkey, o_orderkey), e)
      && Keeps(Equals(l_suppkey, s_suppkey), e) && Keeps(Equals(c_nationkey, s_nationkey), e)
      && Keeps(Equals(s_nationkey, n_nationkey), e) && Keeps(Equals(n_regionkey, r_regionkey), e)
      && Keeps(IS_ASIA, e) && Keeps(DATE_FROM, e) && Keeps(DATE_BEFORE, e)
  {
    var w := SQL_WHERE;
    assert w[0] == Equals(c_custkey, o_custkey) && w[1] == Equals(l_orderkey, o_orderkey);
    assert w[2] == Equals(l_suppkey, s_suppkey) && w[3] == Equals(c_nationkey, s_nationkey);
    assert w[4] == Equals(s_nationkey, n_nationkey) && w[5] == Equals(n_regionkey, r_regionkey);
    assert w[6] == IS_ASIA && w[7] == DATE_FROM && w[8] == DATE_BEFORE;
  }

  // ----- the plan's predicates -----

  const ORDERS_COLS := [o_custkey, o_orderkey, o_orderdate]
  const REGION_COLS := [r_regionkey, r_name]

  const ORDER_DATE := ColumnReference(Find(ORDERS_COLS, o_orderdate))
  const ORDERS_LOWER := Operation(GREATER_EQUAL, ORDER_DATE, Literal(Day(LOWER)))
  const ORDERS_UPPER := Operation(LESS, ORDER_DATE, Literal(Day(UPPER)))
  const ORDERS_PRED := Operation(LOGICAL_AND, ORDERS_LOWER, ORDERS_UPPER)
  const REGION_PRED := Operation(EQUAL, ColumnReference(Find(REGION_COLS, r_name)), Literal(Text("ASIA")))

  lemma PredicatesByName()
    ensures InRange(ORDERS_PRED, |ORDERS_COLS|) && InRange(REGION_PRED, |REGION_COLS|)
    ensures Named(ORDERS_PRED, ORDERS_COLS) == Bin(LOGICAL_AND, DATE_FROM, DATE_BEFORE)
    ensures Named(REGION_PRED, REGION_COLS) == IS_ASIA
  {
    FindDistinct(ORDERS_COLS, 2);
    FindDistinct(REGION_COLS, 1);
    assert InRange(ORDER_DATE, 3);
    assert InRange(ORDERS_LOWER, 3) && InRange(ORDERS_UPPER, 3);
    assert Named(ORDERS_LOWER, ORDERS_COLS) == DATE_FROM;
    assert Named(ORDERS_UPPER, ORDERS_COLS) == DATE_BEFORE;
  }

  /** What the plan tests, join by join. */
  predicate PlanTests(e: Env) {
    && Keeps(IS_ASIA, e) && Keeps(DATE_FROM, e) && Keeps(DATE_BEFORE, e)
    && Get(e, r_regionkey) == Get(e, n_regionkey) && Get(e, n_nationkey) == Get(e, c_nationkey)
    && Get(e, c_custkey) == Get(e, o_custkey) && Get(e, o_orderkey) == Get(e, l_orderkey)
    && Get(e, s_suppkey) == Get(e, l_suppkey) && Get(e, s_nationkey) == Get(e, n_nationkey)
  }

  function Tests(): Env -> bool {
    e => PlanTests(e)
  }

  /** WHERE is what the plan tests, without nulls: c_nationkey = s_nationkey follows, because both equal
      n_nationkey. */
  lemma PlanTestsAreWhere(e: Env)
    ensures Where(SQL_WHERE, e) <==> PlanTests(e) && NonNull(e, COMPARED)
  {
    SqlTests(e);
    EqualsKeeps(c_custkey, o_custkey, e);
    EqualsKeeps(l_orderkey, o_orderkey, e);
    EqualsKeeps(l_suppkey, s_suppkey, e);
    EqualsKeeps(c_nationkey, s_nationkey, e);
    EqualsKeeps(s_nationkey, n_nationkey, e);
    EqualsKeeps(n_regionkey, r_regionkey, e);
  }

  // ----- the program -----

  lemma FromColumns()
    ensures COMPARED <= ColumnsOf(SQL_FROM)
  {
    var from := SQL_FROM;
    assert from[0] == CUSTOMER && from[1] == ORDERS && from[2] == LINEITEM;
    assert from[3] == SUPPLIER && from[4] == NATION && from[5] == REGION;
    ColumnsFrom(COMPARED, from);
  }

  lemma GroupKeys()
    ensures SQL.keys == {n_name} <= ColumnsOf(SQL_FROM) && SQL.keys !! Computed(SQL.compute)
  {
    var from := SQL_FROM;
    assert from[4] == NATION;
    ColumnsFrom({n_name}, from);
    assert Elements(GROUP_COLS) == {n_name};
    ComputedRevenue();
  }

  lemma GroupKeysNonNull(db: Database)
    requires WellFormed(db) && NonNullOn(db, {n_name})
    ensures KeysNonNull(SQL, db)
  {
    FromIsLeaves();
    GroupKeys();
    StoredKeysNonNull(SQL, db, {n_name});
  }

  /** Tables without nulls in the compared columns and in n_name. */
  lemma CleanTables(db: Database)
    requires WellFormed(db) && NonNullOn(db, COMPARED + {n_name})
    ensures NoNullPasses(Tests(), COMPARED, SQL_FROM, db) && KeysNonNull(SQL, db)
  {
    FromColumns();
    CleanColumns(Tests(), COMPARED, SQL_FROM, db);
    GroupKeysNonNull(db);
  }

  const CUSTOMER_COLS := [c_custkey, c_nationkey]
  const LINEITEM_COLS := [l_orderkey, l_suppkey, l_extendedprice, l_discount]
  const SUPPLIER_COLS := [s_suppkey, s_nationkey]
  const NATION_COLS := [n_nationkey, n_regionkey, n_name]

  lemma ListsReadable()
    ensures Readable(CUSTOMER, CUSTOMER_COLS) && Readable(ORDERS, ORDERS_COLS) && Readable(LINEITEM, LINEITEM_COLS)
    ensures Readable(SUPPLIER, SUPPLIER_COLS) && Readable(NATION, NATION_COLS) && Readable(REGION, REGION_COLS)
  {
  }

  /** The plan the joins carry out, and its scans. */
  datatype Pieces = Pieces(whole: Plan, region: Plan, nation: Plan, customer: Plan, orders: Plan, lineitem: Plan,
                           supplier: Plan)

  ghost predicate IsPlan(p: Pieces) {
    && p.region == Scan(REGION, Elements(REGION_COLS), IS_ASIA)
    && p.nation == Scan(NATION, Elements(NATION_COLS), NO_FILTER)
    && p.customer == Scan(CUSTOMER, Elements(CUSTOMER_COLS), NO_FILTER)
    && p.orders == Scan(ORDERS, Elements(ORDERS_COLS), Bin(LOGICAL_AND, DATE_FROM, DATE_BEFORE))
    && p.lineitem == Scan(LINEITEM, Elements(LINEITEM_COLS), NO_FILTER)
    && p.supplier == Scan(SUPPLIER, Elements(SUPPLIER_COLS), NO_FILTER)
    && p.whole == Join(p.supplier,
                       Join(Join(Join(Join(p.region, p.nation, Zip([r_regionkey], [n_regionkey])),
                                      p.customer, Zip([n_nationkey], [c_nationkey])),
                                 p.orders, Zip([c_custkey], [o_custkey])),
                            p.lineitem, Zip([o_orderkey], [l_orderkey])),
                       Zip([s_suppkey, s_nationkey], [l_suppkey, n_nationkey]))
  }

  function JoinA(p: Pieces): Plan {
    Join(p.region, p.nation, Zip([r_regionkey], [n_regionkey]))
  }

  function JoinB(p: Pieces): Plan {
    Join(JoinA(p), p.customer, Zip([n_nationkey], [c_nationkey]))
  }

  function JoinC(p: Pieces): Plan {
    Join(JoinB(p), p.orders, Zip([c_custkey], [o_custkey]))
  }

  function JoinD(p: Pieces): Plan {
    Join(JoinC(p), p.lineitem, Zip([o_orderkey], [l_orderkey]))
  }

  lemma JoinLeaves(p: Pieces)
    requires IsPlan(p)
    ensures Leaves(JoinA(p)) == [REGION, NATION]
    ensures Leaves(JoinB(p)) == [REGION, NATION, CUSTOMER]
    ensures Leaves(JoinC(p)) == [REGION, NATION, CUSTOMER, ORDERS]
    ensures Leaves(JoinD(p)) == [REGION, NATION, CUSTOMER, ORDERS, LINEITEM]
  {
    assert Leaves(JoinA(p)) == [REGION] + [NATION];
    assert Leaves(JoinB(p)) == [REGION, NATION] + [CUSTOMER];
    assert Leaves(JoinC(p)) == [REGION, NATION, CUSTOMER] + [ORDERS];
    assert Leaves(JoinD(p)) == [REGION, NATION, CUSTOMER, ORDERS] + [LINEITEM];
  }

  /** Every join finds its keys on both sides and joins different tables. */
  lemma JoinsPossible(p: Pieces)
    requires IsPlan(p)
    ensures Joinable(p.region, p.nation, [r_regionkey], [n_regionkey])
    ensures Joinable(JoinA(p), p.customer, [n_nationkey], [c_nationkey])
    ensures Joinable(JoinB(p), p.orders, [c_custkey], [o_custkey])
    ensures Joinable(JoinC(p), p.lineitem, [o_orderkey], [l_orderkey])
  {
    assert ORDERS_COLS[0] in Elements(ORDERS_COLS) && ORDERS_COLS[1] in Elements(ORDERS_COLS);
    assert LINEITEM_COLS[0] in Elements(LINEITEM_COLS);
    JoinLeaves(p);
  }

  lemma LastJoinPossible(p: Pieces)
    requires IsPlan(p)
    ensures Joinable(p.supplier, JoinD(p), [s_suppkey, s_nationkey], [l_suppkey, n_nationkey])
  {
    assert LINEITEM_COLS[1] in Elements(LINEITEM_COLS) && NATION_COLS[0] in Elements(NATION_COLS);
    assert OutColumns(p.nation) <= OutColumns(JoinA(p)) <= OutColumns(JoinB(p)) <= OutColumns(JoinC(p));
    assert OutColumns(JoinD(p)) == OutColumns(JoinC(p)) + OutColumns(p.lineitem);
    JoinLeaves(p);
  }

  lemma PlanConditions(p: Pieces, e: Env)
    requires IsPlan(p)
    ensures Conditions(p.whole, e) <==> PlanTests(e)
  {
    var a := Join(p.region, p.nation, Zip([r_regionkey], [n_regionkey]));
    var b := Join(a, p.customer, Zip([n_nationkey], [c_nationkey]));
    var c := Join(b, p.orders, Zip([c_custkey], [o_custkey]));
    BothKept(DATE_FROM, DATE_BEFORE, e);
    MatchesTwo(s_suppkey, l_suppkey, s_nationkey, n_nationkey, e);
    JoinConditions(c, p.lineitem, o_orderkey, l_orderkey, e);
    JoinConditions(b, p.orders, c_custkey, o_custkey, e);
    JoinConditions(a, p.customer, n_nationkey, c_nationkey, e);
    JoinConditions(p.region, p.nation, r_regionkey, n_regionkey, e);
  }

  lemma PlanShape(p: Pieces)
    requires IsPlan(p)
    ensures Leaves(p.whole) == [SUPPLIER, REGION, NATION, CUSTOMER, ORDERS, LINEITEM]
    ensures {l_extendedprice, l_discount, n_name} <= OutColumns(p.whole)
  {
    var a := Join(p.region, p.nation, Zip([r_regionkey], [n_regionkey]));
    var b := Join(a, p.customer, Zip([n_nationkey], [c_nationkey]));
    var c := Join(b, p.orders, Zip([c_custkey], [o_custkey]));
    var d := Join(c, p.lineitem, Zip([o_orderkey], [l_orderkey]));
    assert Leaves(a) == [REGION, NATION];
    assert Leaves(b) == [REGION, NATION, CUSTOMER];
    assert Leaves(c) == [REGION, NATION, CUSTOMER, ORDERS];
    assert Leaves(d) == [REGION, NATION, CUSTOMER, ORDERS, LINEITEM];
    assert Leaves(p.whole) == Leaves(p.supplier) + Leaves(d);
    assert OutColumns(p.whole) == OutColumns(p.supplier) + OutColumns(d);
    assert OutColumns(p.nation) <= OutColumns(a) <= OutColumns(b) <= OutColumns(c) <= OutColumns(d);
    assert LINEITEM_COLS[2] in Elements(LINEITEM_COLS) && LINEITEM_COLS[3] in Elements(LINEITEM_COLS);
    assert NATION_COLS[2] in Elements(NATION_COLS);
  }

  lemma FromIsLeaves()
    ensures multiset(SQL_FROM) == multiset([SUPPLIER, REGION, NATION, CUSTOMER, ORDERS, LINEITEM])
    ensures Distinct(SQL_FROM)
  {
    DistinctPermutation(SQL_FROM, [SUPPLIER, REGION, NATION, CUSTOMER, ORDERS, LINEITEM]);
  }

  lemma InputsListed(p: Plan)
    requires {l_extendedprice, l_discount, n_name} <= OutColumns(p)
    ensures DeliversInputs(p, SQL)
  {
    OutputDistinctNames();
    ComputedRevenue();
  }

  lemma NamesListed(names: seq<ColName>, rows: seq<Env>, p: Plan, db: Database)
    requires WellFormed(db) && Delivers(names, rows, p, db)
    requires Leaves(p) == [SUPPLIER, REGION, NATION, CUSTOMER, ORDERS, LINEITEM]
    requires {l_extendedprice, l_discount, n_name} <= OutColumns(p)
    ensures l_extendedprice in names && l_discount in names && n_name in names && revenue !in names
  {
    assert {l_extendedprice, l_discount, n_name} <= Elements(names);
    if revenue in names {
      NamesStored(names, rows, p, db, revenue);
    }
  }

  lemma PlanTestsAll(p: Pieces)
    requires IsPlan(p)
    ensures forall e: Env :: Conditions(p.whole, e) <==> Tests()(e)
    ensures WhereIs(SQL_WHERE, Tests(), COMPARED)
  {
    forall e: Env
      ensures Conditions(p.whole, e) <==> Tests()(e)
      ensures Where(SQL_WHERE, e) <==> Tests()(e) && NonNull(e, COMPARED)
    {
      PlanConditions(p, e);
      PlanTestsAreWhere(e);
    }
  }

  /** Grouping what the plan delivers gives the groups of what it tests. */
  lemma JoinedGroups(rows: seq<Env>, p: Pieces, db: Database)
    requires WellFormed(db) && IsPlan(p)
    requires Resolves(p.whole) && multiset(rows) == multiset(ProjectedRows(p.whole, db))
    ensures Groups(Map(Computer(SQL.compute), rows), SQL.keys, SQL.requests, true) == Delivered(SQL, Tests(), db)
  {
    PlanShape(p);
    PlanTestsAll(p);
    FromIsLeaves();
    InputsListed(p.whole);
    PlanDelivers(p.whole, SQL, Tests(), db, rows);
  }

  /** The joined rows are those of FROM and WHERE exactly when no combination of stored rows passes the
      plan's tests with a null in a compared column. */
  lemma JoinedRowsIff(p: Pieces, db: Database)
    requires WellFormed(db) && IsPlan(p) && Resolves(p.whole)
    ensures multiset(ProjectedRows(p.whole, db))
         == multiset(Map(Projector(OutColumns(p.whole)), SqlRows(SQL_FROM, SQL_WHERE, db)))
       <==> NoNullPasses(Tests(), COMPARED, SQL_FROM, db)
  {
    PlanShape(p);
    PlanTestsAll(p);
    FromIsLeaves();
    NullsDecide(p.whole, [SUPPLIER, REGION, NATION, CUSTOMER, ORDERS, LINEITEM], SQL, Tests(), COMPARED, db);
  }

  /** The reads and the joins. */
  method JoinTables(db: Database) returns (joined: TableWithNames, ghost p: Pieces)
    requires WellFormed(db)
    ensures fresh(joined) && Holds(joined, p.whole, db) && IsPlan(p)
    ensures multiset(joined.Envs())
         == multiset(Map(Projector(Elements(joined.colNames)), SqlRows(SQL_FROM, SQL_WHERE, db)))
       <==> NoNullPasses(Tests(), COMPARED, SQL_FROM, db)
  {
    PredicatesByName();
    ListsReadable();
    var customer, pCustomer := Read(db, CUSTOMER, CUSTOMER_COLS, NO_PRED);
    var orders, pOrders := Read(db, ORDERS, ORDERS_COLS, ORDERS_PRED);
    var lineitem, pLineitem := Read(db, LINEITEM, LINEITEM_COLS, NO_PRED);
    var supplier, pSupplier := Read(db, SUPPLIER, SUPPLIER_COLS, NO_PRED);
    var nation, pNation := Read(db, NATION, NATION_COLS, NO_PRED);
    var region, pRegion := Read(db, REGION, REGION_COLS, REGION_PRED);
    p := Pieces(pRegion, pRegion, pNation, pCustomer, pOrders, pLineitem, pSupplier);
    p := p.(whole := Join(pSupplier, JoinD(p), Zip([s_suppkey, s_nationkey], [l_suppkey, n_nationkey])));
    JoinsPossible(p);
    LastJoinPossible(p);
    var joinA, pA := JoinStep(region, nation, [r_regionkey], [n_regionkey], pRegion, pNation, db);
    var joinB, pB := JoinStep(joinA, customer, [n_nationkey], [c_nationkey], pA, pCustomer, db);
    var joinC, pC := JoinStep(joinB, orders, [c_custkey], [o_custkey], pB, pOrders, db);
    var joinD, pD := JoinStep(joinC, lineitem, [o_orderkey], [l_orderkey], pC, pLineitem, db);
    ghost var whole;
    joined, whole := JoinStep(supplier, joinD, [s_suppkey, s_nationkey], [l_suppkey, n_nationkey], pSupplier, pD, db);
    JoinedRowsIff(p, db);
  }

  lemma OutputDistinctNames()
    ensures Distinct(GROUP_COLS + [revenue])
    ensures Elements(GROUP_COLS) == {n_name}
  {
  }

  lemma RequestNames()
    ensures DistinctNames(SQL.keys, SQL.requests)
  {
    OutputDistinctNames();
  }

  lemma WhereIsTests()
    ensures WhereIs(SQL_WHERE, Tests(), COMPARED)
  {
    forall e: Env ensures Where(SQL_WHERE, e) <==> Tests()(e) && NonNull(e, COMPARED) {
      PlanTestsAreWhere(e);
    }
  }

  /** When the delivered groups are the rows of the SQL text: where no null passes, exactly when no group key
      is null; and where every passing combination that SQL leaves out and cudf groups has a positive revenue,
      exactly when there is none and no group key is null. */
  lemma Decided(db: Database)
    requires WellFormed(db)
    ensures NoNullPasses(Tests(), COMPARED, SQL_FROM, db) ==>
              (Delivered(SQL, Tests(), db) == SqlAnswer(SQL, db) <==> KeysNonNull(SQL, db))
    ensures ExtrasPay(SQL, Tests(), COMPARED, revenue, db) ==>
              (Delivered(SQL, Tests(), db) == SqlAnswer(SQL, db)
          <==> NoExtra(SQL, Tests(), COMPARED, db) && KeysNonNull(SQL, db))
  {
    FromIsLeaves();
    WhereIsTests();
    RequestNames();
    if NoNullPasses(Tests(), COMPARED, SQL_FROM, db) {
      DeliveredIsAnswer(SQL, Tests(), COMPARED, db);
    }
    if ExtrasPay(SQL, Tests(), COMPARED, revenue, db) {
      SumsDecide(SQL, Tests(), COMPARED, revenue, revenue, db);
    }
  }

  /** Where prices are positive and discounts below one, this decides all tables. */
  lemma PricesDecide(db: Database)
    requires WellFormed(db) && PositivePrices(db)
    ensures Delivered(SQL, Tests(), db) == SqlAnswer(SQL, db)
       <==> NoExtra(SQL, Tests(), COMPARED, db) && KeysNonNull(SQL, db)
  {
    var from := SQL_FROM;
    assert from[2] == LINEITEM;
    forall e: Env | Stored(e, SQL_FROM, db) ensures IsPositive(Get(Extend(e, SQL.compute), revenue)) {
      RevenuePays(e, SQL_FROM, db);
    }
    Decided(db);
  }

  // ----- inputs on which the program does not answer the query -----

  /** One row per table, all of which match, with nulls in some columns. */
  function Sample(nulls: set<ColName>): ColName -> Value {
    c => if c in nulls then Null
         else if c == r_name then Text("ASIA")
         else if c == o_orderdate then Day(LOWER)
         else if c == l_discount then Num(0.0)
         else Num(1.0)
  }

  /** The cells that the plan tests agree. */
  predicate Agrees(cell: ColName -> Value) {
    && cell(r_name) == Text("ASIA") && cell(o_orderdate) == Day(LOWER)
    && cell(r_regionkey) == cell(n_regionkey) && cell(n_nationkey) == cell(c_nationkey)
    && cell(c_custkey) == cell(o_custkey) && cell(o_orderkey) == cell(l_orderkey)
    && cell(s_suppkey) == cell(l_suppkey) && cell(s_nationkey) == cell(n_nationkey)
  }

  lemma FromTables(from: seq<TableId>)
    requires from == SQL_FROM
    ensures {CUSTOMER, ORDERS, LINEITEM, SUPPLIER, NATION, REGION} <= Elements(from)
  {
    assert from[0] == CUSTOMER && from[1] == ORDERS && from[2] == LINEITEM;
    assert from[3] == SUPPLIER && from[4] == NATION && from[5] == REGION;
  }

  lemma AgreedPasses(cell: ColName -> Value)
    requires Agrees(cell)
    ensures PlanTests(Combination(cell, SQL_FROM))
  {
    var from, e := SQL_FROM, Combination(cell, SQL_FROM);
    FromTables(from);
    CellOf(cell, from, r_name);
    CellOf(cell, from, o_orderdate);
    FiltersPass(e);
    AgreedKeys(cell, from);
  }

  lemma FiltersPass(e: Env)
    requires Get(e, r_name) == Text("ASIA") && Get(e, o_orderdate) == Day(LOWER)
    ensures Keeps(IS_ASIA, e) && Keeps(DATE_FROM, e) && Keeps(DATE_BEFORE, e)
  {
    assert Eval(IS_ASIA, e) == Apply(EQUAL, Eval(Col(r_name), e), Eval(Lit(Text("ASIA")), e));
    assert Eval(DATE_FROM, e) == Apply(GREATER_EQUAL, Eval(Col(o_orderdate), e), Eval(Lit(Day(LOWER)), e));
    assert Eval(DATE_BEFORE, e) == Apply(LESS, Eval(Col(o_orderdate), e), Eval(Lit(Day(UPPER)), e));
  }

  lemma AgreedKeys(cell: ColName -> Value, from: seq<TableId>)
    requires Agrees(cell)
    requires {CUSTOMER, ORDERS, LINEITEM, SUPPLIER, NATION, REGION} <= Elements(from)
    ensures var e := Combination(cell, from);
            && Get(e, r_regionkey) == Get(e, n_regionkey) && Get(e, n_nationkey) == Get(e, c_nationkey)
            && Get(e, c_custkey) == Get(e, o_custkey) && Get(e, o_orderkey) == Get(e, l_orderkey)
            && Get(e, s_suppkey) == Get(e, l_suppkey) && Get(e, s_nationkey) == Get(e, n_nationkey)
  {
    CellOf(cell, from, r_regionkey);
    CellOf(cell, from, n_regionkey);
    CellOf(cell, from, n_nationkey);
    CellOf(cell, from, c_nationkey);
    CellOf(cell, from, s_nationkey);
    CellOf(cell, from, c_custkey);
    CellOf(cell, from, o_custkey);
    CellOf(cell, from, o_orderkey);
    CellOf(cell, from, l_orderkey);
    CellOf(cell, from, s_suppkey);
    CellOf(cell, from, l_suppkey);
  }

  lemma SamplePays(cell: ColName -> Value)
    requires cell(l_extendedprice) == Num(1.0) && cell(l_discount) == Num(0.0)
    ensures PositivePrices(OneRowEach(cell))
  {
    var row := OneRow(cell, LINEITEM);
    assert l_extendedprice in Columns(LINEITEM) && l_discount in Columns(LINEITEM);
    assert Get(row, l_extendedprice) == Num(1.0) && Get(row, l_discount) == Num(0.0);
  }

  /** Where the cells agree, the key c_custkey decides whether the combination is one of SQL's, and n_name
      whether cudf groups it. */
  lemma AgreedMisses(cell: ColName -> Value)
    requires Agrees(cell) && cell(l_extendedprice) == Num(1.0) && cell(l_discount) == Num(0.0)
    requires cell(c_custkey) == Null <==> cell(n_name) != Null
    requires forall c :: c in COMPARED && cell(c) == Null ==> c == c_custkey || c == o_custkey
    ensures Delivered(SQL, Tests(), OneRowEach(cell)) != SqlAnswer(SQL, OneRowEach(cell))
  {
    SamplePays(cell);
    CombinationStored(cell, SQL_FROM);
    PricesDecide(OneRowEach(cell));
    FromIsLeaves();
    AgreedPasses(cell);
    AgreedNulls(cell);
    AgreedKey(cell);
    PlanTestsAreWhere(Combination(cell, SQL_FROM));
    OneRowMisses(SQL, Tests(), COMPARED, cell);
  }

  lemma AgreedKey(cell: ColName -> Value)
    ensures NullFree(KeyOf(SQL, Combination(cell, SQL_FROM))) <==> cell(n_name) != Null
  {
    var from := SQL_FROM;
    assert from[4] == NATION;
    CellOf(cell, from, n_name);
    GroupKeys();
    OneKey(SQL, Combination(cell, from), n_name);
  }

  lemma AgreedNulls(cell: ColName -> Value)
    requires forall c :: c in COMPARED && cell(c) == Null ==> c == c_custkey || c == o_custkey
    requires cell(c_custkey) == cell(o_custkey)
    ensures NonNull(Combination(cell, SQL_FROM), COMPARED) <==> cell(c_custkey) != Null
  {
    FromColumns();
    forall c | c in COMPARED ensures Get(Combination(cell, SQL_FROM), c) == cell(c) {
      assert c in ColumnsOf(SQL_FROM);
    }
    assert c_custkey in COMPARED;
  }

  /** A customer and an order without customer key: the program sums the revenue, SQL does not. */
  lemma NullLetThrough()
    ensures var db := OneRowEach(Sample({c_custkey, o_custkey})); Delivered(SQL, Tests(), db) != SqlAnswer(SQL, db)
  {
    AgreedMisses(Sample({c_custkey, o_custkey}));
  }

  /** A nation without a name: SQL has a group for it, the program has none. */
  lemma NullGroupLost()
    ensures var db := OneRowEach(Sample({n_name})); Delivered(SQL, Tests(), db) != SqlAnswer(SQL, db)
  {
    AgreedMisses(Sample({n_name}));
  }

  // ----- the answer, written out -----

  /** The conditions, between texts, days and keys; keys agree when both are null. */
  predicate Passes(e: Env) {
    && Get(e, r_name) == Text("ASIA") && Dated(e, DayOf(1994, 1, 1), DayOf(1995, 1, 1))
    && Get(e, c_custkey) == Get(e, o_custkey) && Get(e, l_orderkey) == Get(e, o_orderkey)
    && Get(e, l_suppkey) == Get(e, s_suppkey) && Get(e, c_nationkey) == Get(e, s_nationkey)
    && Get(e, s_nationkey) == Get(e, n_nationkey) && Get(e, n_regionkey) == Get(e, r_regionkey)
  }

  function Passing(): Env -> bool {
    e => Passes(e)
  }

  lemma PassesMeans(e: Env)
    ensures PlanTests(e) <==> Passes(e)
    ensures Where(SQL_WHERE, e) <==> Passes(e) && NonNull(e, COMPARED)
  {
    QueryDates();
    NamedMeans(e, r_name, "ASIA");
    DatedMeans(e, LOWER, UPPER);
    PlanTestsAreWhere(e);
  }

  function ByNation(): Env -> Env {
    e => Cells(e, {n_name})
  }

  /** A row of the answer: a nation that is not null, with the sum of what its passing combinations pay. */
  ghost predicate IsGroup(r: Env, db: Database)
    requires forall t: TableId :: t in db
  {
    IsSum(r, Filter(Passing(), Cross(SQL_FROM, db)), ByNation(), Pay(), revenue)
  }

  lemma KeyAndValue(e: Env)
    requires e.Keys == ColumnsOf(SQL_FROM)
    ensures ByNation()(e) == KeyOf(SQL, e) && Pay()(e) == Get(Extend(e, SQL.compute), revenue)
  {
    GroupKeys();
    StoredKey(SQL, e);
    PayIsRevenue(e);
  }

  lemma GroupsMean(db: Database, r: Env)
    requires WellFormed(db)
    ensures r in Delivered(SQL, Tests(), db) <==> IsGroup(r, db)
  {
    forall e: Env ensures Tests()(e) == Passing()(e) {
      PassesMeans(e);
    }
    forall e: Env | e.Keys == ColumnsOf(SQL.from)
      ensures ByNation()(e) == KeyOf(SQL, e) && Pay()(e) == Get(Extend(e, SQL.compute), revenue)
    {
      KeyAndValue(e);
    }
    FromIsLeaves();
    DeliveredSums(SQL, Tests(), Passing(), ByNation(), Pay(), revenue, revenue, db, r);
  }

  lemma AnswerMeans(db: Database, envs: seq<Env>)
    requires WellFormed(db) && Elements(envs) == Delivered(SQL, Tests(), db)
    requires SortedBy(envs, [revenue], [DESCENDING])
    ensures forall row :: row in envs <==> IsGroup(row, db)
    ensures Falls(Map(Getter(revenue), envs))
  {
    forall row: Env ensures row in envs <==> IsGroup(row, db) {
      assert row in Elements(envs) <==> row in envs;
      GroupsMean(db, row);
    }
    SumCells(Filter(Passing(), Cross(SQL_FROM, db)), ByNation(), Pay(), revenue, envs);
    SortedFalls(envs, revenue);
  }

  /** `run_ndsh_q5` without the parquet output, for all tables: it does not fail, and it delivers the groups
      of the combinations that pass the plan's tests, each once, in descending order of revenue. Where no
      null passes the tests, these are the rows of the SQL text exactly when no group key is null. */
  method RunQ5(db: Database) returns (r: Result<TableWithNames>)
    requires WellFormed(db)
    ensures r.Ok? && r.value.Valid() && r.value.colNames == GROUP_COLS + [revenue]
    ensures Elements(r.value.Envs()) == Delivered(SQL, Tests(), db) && Distinct(r.value.Envs())
    ensures forall row :: row in r.value.Envs() <==> IsGroup(row, db)
    ensures Falls(Map(Getter(revenue), r.value.Envs()))
    ensures NoNullPasses(Tests(), COMPARED, SQL_FROM, db) ==>
              (Elements(r.value.Envs()) == SqlAnswer(SQL, db) <==> KeysNonNull(SQL, db))
    ensures ExtrasPay(SQL, Tests(), COMPARED, revenue, db) ==>
              (Elements(r.value.Envs()) == SqlAnswer(SQL, db)
          <==> NoExtra(SQL, Tests(), COMPARED, db) && KeysNonNull(SQL, db))
  {
    var joined, p := JoinTables(db);
    PlanShape(p);
    NamesListed(joined.colNames, joined.Envs(), p.whole, db);
    JoinedGroups(joined.Envs(), p, db);
    AppendRevenue(joined);
    OutputDistinctNames();
    var grouped := GroupRevenue(joined, GROUP_COLS);
    r := ApplyOrderBy(grouped, [revenue], [DESCENDING]);
    SameElements(grouped.Envs(), r.value.Envs());
    AnswerMeans(db, r.value.Envs());
    Decided(db);
  }
}
