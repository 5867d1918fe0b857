/** Query 10 (cpp/benchmarks/ndsh/q10.cpp): customers with their nation on one side, returned items with
    their orders on the other, joined at the top; groups over seven columns. */
module Q10 {
  import opened Answers
  import opened Calendar
  import opened GroupBy
  import opened Grouping
  import opened NullRows
  import opened Queries
  import opened Relational
  import opened RevenueColumn
  import opened Schema
  import opened Sequences
  import opened Tables
  import opened Values

  // Day numbers of 1993-10-01 and 1994-01-01.
  const LOWER := 8674
  const UPPER := 8766

  // ----- the SQL text -----

  const IS_RETURNED := Bin(EQUAL, Col(l_returnflag), Lit(Text("R")))
  const DATE_FROM := Bin(GREATER_EQUAL, Col(o_orderdate), Lit(Day(LOWER)))
  const DATE_BEFORE := Bin(LESS, Col(o_orderdate), Lit(Day(UPPER)))

  const SQL_FROM := [CUSTOMER, ORDERS, LINEITEM, NATION]
  const SQL_WHERE := [Equals(c_custkey, o_custkey), Equals(l_orderkey, o_orderkey), DATE_FROM, DATE_BEFORE, IS_RETURNED,
                      Equals(c_nationkey, n_nationkey)]
  const GROUP_COLS := [c_custkey, c_name, c_acctbal, c_phone, n_name, c_address, c_comment]
  const SQL := Query(SQL_FROM, SQL_WHERE, [(revenue, REVENUE)], Elements(GROUP_COLS), REQUESTS)

  /** The columns that are compared; SQL and cudf treat nulls in them differently. */
  const COMPARED := {c_custkey, o_custkey, l_orderkey, o_orderkey, c_nationkey, n_nationkey}

  lemma SqlTests(e: Env)
    ensures Where(SQL_WHERE, e) <==>
      && Keeps(Equals(c_custkey, o_custkey), e) && Keeps(Equals(l_orderkey, o_orderkey), e)
      && Keeps(DATE_FROM, e) && Keeps(DATE_BEFORE, e) && Keeps(IS_RETURNED, e)
      && Keeps(Equals(c_nationkey, n_nationkey), e)
  {
    var w := SQL_WHERE;
    assert w[0] == Equals(c_custkey, o_custkey) && w[1] == Equals(l_orderkey, o_orderkey);
    assert w[2] == DATE_FROM && w[3] == DATE_BEFORE && w[4] == IS_RETURNED && w[5] == Equals(c_nationkey, n_nationkey);
  }

  // ----- the plan's predicates -----

  const CUSTOMER_COLS := [c_custkey, c_name, c_nationkey, c_acctbal, c_address, c_phone, c_comment]
  const ORDERS_COLS := [o_custkey, o_orderkey, o_orderdate]
  const LINEITEM_COLS := [l_extendedprice, l_discount, l_orderkey, l_returnflag]
  const NATION_COLS := [n_name, n_nationkey]

  const ORDER_DATE := ColumnReference(Find(ORDERS_COLS, o_orderdate))
  const ORDERS_LOWER := Operation(GREATER_EQUAL, ORDER_DATE, Literal(Day(LOWER)))
  const ORDERS_UPPER := Operation(LESS, ORDER_DATE, Literal(Day(UPPER)))
  const ORDERS_PRED := Operation(LOGICAL_AND, ORDERS_LOWER, ORDERS_UPPER)
  const LINEITEM_PRED := Operation(EQUAL, ColumnReference(3), Literal(Text("R")))

  lemma PredicatesByName()
    ensures InRange(ORDERS_PRED, |ORDERS_COLS|) && InRange(LINEITEM_PRED, |LINEITEM_COLS|)
    ensures Named(ORDERS_PRED, ORDERS_COLS) == Bin(LOGICAL_AND, DATE_FROM, DATE_BEFORE)
    ensures Named(LINEITEM_PRED, LINEITEM_COLS) == IS_RETURNED
  {
    FindDistinct(ORDERS_COLS, 2);
    assert InRange(ORDER_DATE, 3);
    assert InRange(ORDERS_LOWER, 3) && InRange(ORDERS_UPPER, 3);
    assert Named(ORDERS_LOWER, ORDERS_COLS) == DATE_FROM;
    assert Named(ORDERS_UPPER, ORDERS_COLS) == DATE_BEFORE;
  }

  /** What the plan tests, join by join. */
  predicate PlanTests(e: Env) {
    && Keeps(IS_RETURNED, e) && Keeps(DATE_FROM, e) && Keeps(DATE_BEFORE, e)
    && Get(e, c_nationkey) == Get(e, n_nationkey) && Get(e, l_orderkey) == Get(e, o_orderkey)
    && Get(e, c_custkey) == Get(e, o_custkey)
  }

  function Tests(): Env -> bool {
    e => PlanTests(e)
  }

  /** WHERE is what the plan tests, without nulls. */
  lemma PlanTestsAreWhere(e: Env)
    ensures Where(SQL_WHERE, e) <==> PlanTests(e) && NonNull(e, COMPARED)
  {
    SqlTests(e);
    EqualsKeeps(c_custkey, o_custkey, e);
    EqualsKeeps(l_orderkey, o_orderkey, e);
    EqualsKeeps(c_nationkey, n_nationkey, e);
  }

  // ----- the program -----

  lemma GroupColumns()
    ensures Elements(GROUP_COLS) <= Columns(CUSTOMER) + Columns(NATION)
    ensures revenue !in GROUP_COLS
  {
  }

  lemma FromColumns()
    ensures COMPARED <= ColumnsOf(SQL_FROM) && Elements(GROUP_COLS) <= ColumnsOf(SQL_FROM)
  {
    var from := SQL_FROM;
    assert from[0] == CUSTOMER && from[1] == ORDERS && from[2] == LINEITEM && from[3] == NATION;
    ColumnsFrom(COMPARED, from);
    GroupColumns();
  }

  lemma GroupKeysNonNull(db: Database)
    requires WellFormed(db) && NonNullOn(db, Elements(GROUP_COLS))
    ensures KeysNonNull(SQL, db)
  {
    FromColumns();
    FromIsLeaves();
    GroupColumns();
    ComputedRevenue();
    StoredKeysNonNull(SQL, db, Elements(GROUP_COLS));
  }

  /** Tables without nulls in the compared and the grouped columns. */
  lemma CleanTables(db: Database)
    requires WellFormed(db) && NonNullOn(db, COMPARED + Elements(GROUP_COLS))
    ensures NoNullPasses(Tests(), COMPARED, SQL_FROM, db) && KeysNonNull(SQL, db)
  {
    FromColumns();
    CleanColumns(Tests(), COMPARED, SQL_FROM, db);
    GroupKeysNonNull(db);
  }

  lemma ListsReadable()
    ensures Readable(CUSTOMER, CUSTOMER_COLS) && Readable(ORDERS, ORDERS_COLS)
    ensures Readable(LINEITEM, LINEITEM_COLS) && Readable(NATION, NATION_COLS)
  {
  }

  /** The plan the joins carry out, and its scans. */
  datatype Pieces = Pieces(whole: Plan, customer: Plan, nation: Plan, lineitem: Plan, orders: Plan)

  ghost predicate IsPlan(p: Pieces) {
    && p.customer == Scan(CUSTOMER, Elements(CUSTOMER_COLS), NO_FILTER)
    && p.nation == Scan(NATION, Elements(NATION_COLS), NO_FILTER)
    && p.lineitem == Scan(LINEITEM, Elements(LINEITEM_COLS), IS_RETURNED)
    && p.orders == Scan(ORDERS, Elements(ORDERS_COLS), Bin(LOGICAL_AND, DATE_FROM, DATE_BEFORE))
    && p.whole == Join(Join(p.customer, p.nation, Zip([c_nationkey], [n_nationkey])),
                       Join(p.lineitem, p.orders, Zip([l_orderkey], [o_orderkey])),
                       Zip([c_custkey], [o_custkey]))
  }

  function JoinA(p: Pieces): Plan {
    Join(p.customer, p.nation, Zip([c_nationkey], [n_nationkey]))
  }

  function JoinB(p: Pieces): Plan {
    Join(p.lineitem, p.orders, Zip([l_orderkey], [o_orderkey]))
  }

  /** Every join finds its keys on both sides and joins different tables. */
  lemma JoinsPossible(p: Pieces)
    requires IsPlan(p)
    ensures Joinable(p.customer, p.nation, [c_nationkey], [n_nationkey])
    ensures Joinable(p.lineitem, p.orders, [l_orderkey], [o_orderkey])
    ensures Joinable(JoinA(p), JoinB(p), [c_custkey], [o_custkey])
  {
    assert CUSTOMER_COLS[0] in Elements(CUSTOMER_COLS) && ORDERS_COLS[0] in Elements(ORDERS_COLS);
    assert LINEITEM_COLS[2] in Elements(LINEITEM_COLS) && ORDERS_COLS[1] in Elements(ORDERS_COLS);
    assert NATION_COLS[1] in Elements(NATION_COLS) && CUSTOMER_COLS[2] in Elements(CUSTOMER_COLS);
    assert OutColumns(p.customer) <= OutColumns(JoinA(p)) && OutColumns(p.orders) <= OutColumns(JoinB(p));
    assert Leaves(p.customer) == [CUSTOMER] && Leaves(p.nation) == [NATION];
    assert Leaves(p.lineitem) == [LINEITEM] && Leaves(p.orders) == [ORDERS];
    assert Leaves(JoinA(p)) == Leaves(p.customer) + Leaves(p.nation);
    assert Leaves(JoinB(p)) == Leaves(p.lineitem) + Leaves(p.orders);
  }

  lemma PlanConditions(p: Pieces, e: Env)
    requires IsPlan(p)
    ensures Conditions(p.whole, e) <==> PlanTests(e)
  {
    var a := Join(p.customer, p.nation, Zip([c_nationkey], [n_nationkey]));
    var b := Join(p.lineitem, p.orders, Zip([l_orderkey], [o_orderkey]));
    BothKept(DATE_FROM, DATE_BEFORE, e);
    JoinConditions(a, b, c_custkey, o_custkey, e);
    JoinConditions(p.customer, p.nation, c_nationkey, n_nationkey, e);
    JoinConditions(p.lineitem, p.orders, l_orderkey, o_orderkey, e);
  }

  const INPUTS := {l_extendedprice, l_discount} + Elements(GROUP_COLS)

  lemma PlanShape(p: Pieces)
    requires IsPlan(p)
    ensures Leaves(p.whole) == [CUSTOMER, NATION, LINEITEM, ORDERS]
    ensures INPUTS <= OutColumns(p.whole)
  {
    var a := Join(p.customer, p.nation, Zip([c_nationkey], [n_nationkey]));
    var b := Join(p.lineitem, p.orders, Zip([l_orderkey], [o_orderkey]));
    assert Leaves(p.lineitem) == [LINEITEM] && Leaves(p.orders) == [ORDERS];
    assert Leaves(a) == [CUSTOMER] + [NATION];
    assert Leaves(b) == [LINEITEM] + [ORDERS];
    assert Leaves(p.whole) == Leaves(a) + Leaves(b);
    assert OutColumns(p.whole) == OutColumns(a) + OutColumns(b);
    assert OutColumns(a) == Elements(CUSTOMER_COLS) + Elements(NATION_COLS);
    assert OutColumns(b) == Elements(LINEITEM_COLS) + Elements(ORDERS_COLS);
  }

  lemma FromIsLeaves()
    ensures multiset(SQL_FROM) == multiset([CUSTOMER, NATION, LINEITEM, ORDERS])
    ensures Distinct(SQL_FROM)
  {
    DistinctPermutation(SQL_FROM, [CUSTOMER, NATION, LINEITEM, ORDERS]);
  }

  lemma InputsListed(p: Plan)
    requires INPUTS <= OutColumns(p)
    ensures DeliversInputs(p, SQL)
  {
    ComputedRevenue();
  }

  lemma NamesListed(names: seq<ColName>, rows: seq<Env>, p: Plan, db: Database)
    requires WellFormed(db) && Delivers(names, rows, p, db)
    requires Leaves(p) == [CUSTOMER, NATION, LINEITEM, ORDERS]
    requires INPUTS <= OutColumns(p)
    ensures l_extendedprice in names && l_discount in names && Elements(GROUP_COLS) <= Elements(names)
    ensures revenue !in names
  {
    assert {l_extendedprice, l_discount} <= Elements(names);
    if revenue in names {
      NamesStored(names, rows, p, db, revenue);
    }
  }

  lemma PlanTestsAll(p: Pieces)
    requires IsPlan(p)
    ensures forall e: Env :: Conditions(p.whole, e) <==> Tests()(e)
    ensures WhereIs(SQL_WHERE, Tests(), COMPARED)
  {
    forall e: Env
      ensures Conditions(p.whole, e) <==> Tests()(e)
      ensures Where(SQL_WHERE, e) <==> Tests()(e) && NonNull(e, COMPARED)
    {
      PlanConditions(p, e);
      PlanTestsAreWhere(e);
    }
  }

  /** Grouping what the plan delivers gives the groups of what it tests. */
  lemma JoinedGroups(rows: seq<Env>, p: Pieces, db: Database)
    requires WellFormed(db) && IsPlan(p)
    requires Resolves(p.whole) && multiset(rows) == multiset(ProjectedRows(p.whole, db))
    ensures Groups(Map(Computer(SQL.compute), rows), SQL.keys, SQL.requests, true) == Delivered(SQL, Tests(), db)
  {
    PlanShape(p);
    PlanTestsAll(p);
    FromIsLeaves();
    InputsListed(p.whole);
    PlanDelivers(p.whole, SQL, Tests(), db, rows);
  }

  /** The joined rows are those of FROM and WHERE exactly when no combination of stored rows passes the
      plan's tests with a null in a compared column. */
  lemma JoinedRowsIff(p: Pieces, db: Database)
    requires WellFormed(db) && IsPlan(p) && Resolves(p.whole)
    ensures multiset(ProjectedRows(p.whole, db))
         == multiset(Map(Projector(OutColumns(p.whole)), SqlRows(SQL_FROM, SQL_WHERE, db)))
       <==> NoNullPasses(Tests(), COMPARED, SQL_FROM, db)
  {
    PlanShape(p);
    PlanTestsAll(p);
    FromIsLeaves();
    NullsDecide(p.whole, [CUSTOMER, NATION, LINEITEM, ORDERS], SQL, Tests(), COMPARED, db);
  }

  /** The reads and the joins. */
  method JoinTables(db: Database) returns (joined: TableWithNames, ghost p: Pieces)
    requires WellFormed(db)
    ensures fresh(joined) && Holds(joined, p.whole, db) && IsPlan(p)
    ensures multiset(joined.Envs())
         == multiset(Map(Projector(Elements(joined.colNames)), SqlRows(SQL_FROM, SQL_WHERE, db)))
       <==> NoNullPasses(Tests(), COMPARED, SQL_FROM, db)
  {
    PredicatesByName();
    ListsReadable();
    var customer, pCustomer := Read(db, CUSTOMER, CUSTOMER_COLS, NO_PRED);
    var orders, pOrders := Read(db, ORDERS, ORDERS_COLS, ORDERS_PRED);
    var lineitem, pLineitem := Read(db, LINEITEM, LINEITEM_COLS, LINEITEM_PRED);
    var nation, pNation := Read(db, NATION, NATION_COLS, NO_PRED);
    p := Pieces(pCustomer, pCustomer, pNation, pLineitem, pOrders);
    p := p.(whole := Join(JoinA(p), JoinB(p), Zip([c_custkey], [o_custkey])));
    JoinsPossible(p);
    var joinA, pA := JoinStep(customer, nation, [c_nationkey], [n_nationkey], pCustomer, pNation, db);
    var joinB, pB := JoinStep(lineitem, orders, [l_orderkey], [o_orderkey], pLineitem, pOrders, db);
    ghost var whole;
    joined, whole := JoinStep(joinA, joinB, [c_custkey], [o_custkey], pA, pB, db);
    JoinedRowsIff(p, db);
  }

  lemma OutputDistinctNames()
    ensures Distinct(GROUP_COLS + [revenue]) && DistinctNames(SQL.keys, SQL.requests)
  {
    GroupColumns();
  }

  lemma WhereIsTests()
    ensures WhereIs(SQL_WHERE, Tests(), COMPARED)
  {
    forall e: Env ensures Where(SQL_WHERE, e) <==> Tests()(e) && NonNull(e, COMPARED) {
      PlanTestsAreWhere(e);
    }
  }

  /** When the delivered groups are the rows of the SQL text: where no null passes, exactly when no group key
      is null; and where every passing combination that SQL leaves out and cudf groups has a positive revenue,
      exactly when there is none and no group key is null. */
  lemma Decided(db: Database)
    requires WellFormed(db)
    ensures NoNullPasses(Tests(), COMPARED, SQL_FROM, db) ==>
              (Delivered(SQL, Tests(), db) == SqlAnswer(SQL, db) <==> KeysNonNull(SQL, db))
    ensures ExtrasPay(SQL, Tests(), COMPARED, revenue, db) ==>
              (Delivered(SQL, Tests(), db) == SqlAnswer(SQL, db)
          <==> NoExtra(SQL, Tests(), COMPARED, db) && KeysNonNull(SQL, db))
  {
    FromIsLeaves();
    WhereIsTests();
    OutputDistinctNames();
    if NoNullPasses(Tests(), COMPARED, SQL_FROM, db) {
      DeliveredIsAnswer(SQL, Tests(), COMPARED, db);
    }
    if ExtrasPay(SQL, Tests(), COMPARED, revenue, db) {
      SumsDecide(SQL, Tests(), COMPARED, revenue, revenue, db);
    }
  }

  /** Where prices are positive and discounts below one, this decides all tables. */
  lemma PricesDecide(db: Database)
    requires WellFormed(db) && PositivePrices(db)
    ensures Delivered(SQL, Tests(), db) == SqlAnswer(SQL, db)
       <==> NoExtra(SQL, Tests(), COMPARED, db) && KeysNonNull(SQL, db)
  {
    var from := SQL_FROM;
    assert from[2] == LINEITEM;
    forall e: Env | Stored(e, SQL_FROM, db) ensures IsPositive(Get(Extend(e, SQL.compute), revenue)) {
      RevenuePays(e, SQL_FROM, db);
    }
    Decided(db);
  }

  // ----- the answer, written out -----

  /** The conditions, between texts, days and keys; keys agree when both are null. */
  predicate Passes(e: Env) {
    && Get(e, l_returnflag) == Text("R") && Dated(e, DayOf(1993, 10, 1), DayOf(1994, 1, 1))
    && Get(e, c_custkey) == Get(e, o_custkey) && Get(e, l_orderkey) == Get(e, o_orderkey)
    && Get(e, c_nationkey) == Get(e, n_nationkey)
  }

  function Passing(): Env -> bool {
    e => Passes(e)
  }

  lemma PassesMeans(e: Env)
    ensures PlanTests(e) <==> Passes(e)
    ensures Where(SQL_WHERE, e) <==> Passes(e) && NonNull(e, COMPARED)
  {
    QueryDates();
    NamedMeans(e, l_returnflag, "R");
    DatedMeans(e, LOWER, UPPER);
    PlanTestsAreWhere(e);
  }

  function ByCustomer(): Env -> Env {
    e => Cells(e, {c_custkey, c_name, c_acctbal, c_phone, n_name, c_address, c_comment})
  }

  /** A row of the answer: seven columns that are not null, with the sum of what their passing combinations
      pay. */
  ghost predicate IsGroup(r: Env, db: Database)
    requires forall t: TableId :: t in db
  {
    IsSum(r, Filter(Passing(), Cross(SQL_FROM, db)), ByCustomer(), Pay(), revenue)
  }

  lemma KeyAndValue(e: Env)
    requires e.Keys == ColumnsOf(SQL_FROM)
    ensures ByCustomer()(e) == KeyOf(SQL, e) && Pay()(e) == Get(Extend(e, SQL.compute), revenue)
  {
    FromColumns();
    GroupColumns();
    ComputedRevenue();
    StoredKey(SQL, e);
    PayIsRevenue(e);
  }

  lemma GroupsMean(db: Database, r: Env)
    requires WellFormed(db)
    ensures r in Delivered(SQL, Tests(), db) <==> IsGroup(r, db)
  {
    forall e: Env ensures Tests()(e) == Passing()(e) {
      PassesMeans(e);
    }
    forall e: Env | e.Keys == ColumnsOf(SQL.from)
      ensures ByCustomer()(e) == KeyOf(SQL, e) && Pay()(e) == Get(Extend(e, SQL.compute), revenue)
    {
      KeyAndValue(e);
    }
    FromIsLeaves();
    DeliveredSums(SQL, Tests(), Passing(), ByCustomer(), Pay(), revenue, revenue, db, r);
  }

  lemma AnswerMeans(db: Database, envs: seq<Env>)
    requires WellFormed(db) && Elements(envs) == Delivered(SQL, Tests(), db)
    requires SortedBy(envs, [revenue], [DESCENDING])
    ensures forall row :: row in envs <==> IsGroup(row, db)
    ensures Falls(Map(Getter(revenue), envs))
  {
    forall row: Env ensures row in envs <==> IsGroup(row, db) {
      assert row in Elements(envs) <==> row in envs;
      GroupsMean(db, row);
    }
    SumCells(Filter(Passing(), Cross(SQL_FROM, db)), ByCustomer(), Pay(), revenue, envs);
    SortedFalls(envs, revenue);
  }

  /** `run_ndsh_q10` without the parquet output, for all tables: it does not fail, and it delivers the groups
      of the combinations that pass the plan's tests, each once, in descending order of revenue. Where no
      null passes the tests, these are the rows of the SQL text exactly when no group key is null. */
  method RunQ10(db: Database) returns (r: Result<TableWithNames>)
    requires WellFormed(db)
    ensures r.Ok? && r.value.Valid() && r.value.colNames == GROUP_COLS + [revenue]
    ensures Elements(r.value.Envs()) == Delivered(SQL, Tests(), db) && Distinct(r.value.Envs())
    ensures forall row :: row in r.value.Envs() <==> IsGroup(row, db)
    ensures Falls(Map(Getter(revenue), r.value.Envs()))
    ensures NoNullPasses(Tests(), COMPARED, SQL_FROM, db) ==>
              (Elements(r.value.Envs()) == SqlAnswer(SQL, db) <==> KeysNonNull(SQL, db))
    ensures ExtrasPay(SQL, Tests(), COMPARED, revenue, db) ==>
              (Elements(r.value.Envs()) == SqlAnswer(SQL, db)
          <==> NoExtra(SQL, Tests(), COMPARED, db) && KeysNonNull(SQL, db))
  {
    var joined, p := JoinTables(db);
    PlanShape(p);
    NamesListed(joined.colNames, joined.Envs(), p.whole, db);
    JoinedGroups(joined.Envs(), p, db);
    AppendRevenue(joined);
    OutputDistinctNames();
    var grouped := GroupRevenue(joined, GROUP_COLS);
    r := ApplyOrderBy(grouped, [revenue], [DESCENDING]);
    SameElements(grouped.Envs(), r.value.Envs());
    AnswerMeans(db, r.value.Envs());
    Decided(db);
  }
}
