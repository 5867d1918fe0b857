/** Query 9 (cpp/benchmarks/ndsh/q09.cpp): the LIKE filter below the joins, two join subtrees that meet
    on (suppkey, partkey), and an amount column computed by one of three engines. */
module Q09 {
  import opened Answers
  import opened Calendar
  import opened GroupBy
  import opened Grouping
  import opened NullRows
  import opened Queries
  import opened Relational
  import opened Schema
  import opened Sequences
  import opened Tables
  import opened Values
  import Trees = ExpressionTrees

  // ----- the SQL text -----

  const IS_GREEN := Like(Col(p_name), "green")
  const DISCOUNTED := Bin(MUL, Col(l_extendedprice), Bin(SUB, Lit(Num(1.0)), Col(l_discount)))
  const COST := Bin(MUL, Col(ps_supplycost), Col(l_quantity))
  const AMOUNT := Bin(SUB, DISCOUNTED, COST)

  const SQL_FROM := [PART, SUPPLIER, LINEITEM, PARTSUPP, ORDERS, NATION]
  const SQL_WHERE := [Equals(s_suppkey, l_suppkey), Equals(ps_suppkey, l_suppkey), Equals(ps_partkey, l_partkey),
                      Equals(p_partkey, l_partkey), Equals(o_orderkey, l_orderkey), Equals(s_nationkey, n_nationkey),
                      IS_GREEN]
  const COMPUTE := [(nation, Col(n_name)), (o_year, Year(Col(o_orderdate))), (amount, AMOUNT)]
  const GROUP_COLS := [nation, o_year]
  const REQUESTS := [Request(amount, SUM, sum_profit)]
  const SQL := Query(SQL_FROM, SQL_WHERE, COMPUTE, Elements(GROUP_COLS), REQUESTS)

  /** The columns that are compared; SQL and cudf treat nulls in them differently. */
  const COMPARED := {s_suppkey, l_suppkey, ps_suppkey, ps_partkey, l_partkey, p_partkey, o_orderkey, l_orderkey,
                     s_nationkey, n_nationkey}

  /** Order dates are dates. */
  ghost predicate DatesTyped(db: Database)
    requires ORDERS in db
  {
    forall e: Env :: e in db[ORDERS] && o_orderdate in e ==> e[o_orderdate].Day?
  }

  lemma SqlTests(e: Env)
    ensures Where(SQL_WHERE, e) <==>
      && Keeps(Equals(s_suppkey, l_suppkey), e) && Keeps(Equals(ps_suppkey, l_suppkey), e)
      && Keeps(Equals(ps_partkey, l_partkey), e) && Keeps(Equals(p_partkey, l_partkey), e)
      && Keeps(Equals(o_orderkey, l_orderkey), e) && Keeps(Equals(s_nationkey, n_nationkey), e)
      && Keeps(IS_GREEN, e)
  {
    var w := SQL_WHERE;
    assert w[0] == Equals(s_suppkey, l_suppkey) && w[1] == Equals(ps_suppkey, l_suppkey);
    assert w[2] == Equals(ps_partkey, l_partkey) && w[3] == Equals(p_partkey, l_partkey);
    assert w[4] == Equals(o_orderkey, l_orderkey) && w[5] == Equals(s_nationkey, n_nationkey) && w[6] == IS_GREEN;
  }

  /** What the plan tests, join by join. */
  predicate PlanTests(e: Env) {
    && Keeps(IS_GREEN, e)
    && Get(e, s_nationkey) == Get(e, n_nationkey) && Get(e, ps_suppkey) == Get(e, s_suppkey)
    && Get(e, l_partkey) == Get(e, p_partkey) && Get(e, o_orderkey) == Get(e, l_orderkey)
    && Get(e, l_suppkey) == Get(e, s_suppkey) && Get(e, l_partkey) == Get(e, ps_partkey)
  }

  function Tests(): Env -> bool {
    e => PlanTests(e)
  }

  /** WHERE is what the plan tests, without nulls: the plan compares ps_suppkey with s_suppkey where SQL
      compares it with l_suppkey. */
  lemma PlanTestsAreWhere(e: Env)
    ensures Where(SQL_WHERE, e) <==> PlanTests(e) && NonNull(e, COMPARED)
  {
    SqlTests(e);
    EqualsKeeps(s_suppkey, l_suppkey, e);
    EqualsKeeps(ps_suppkey, l_suppkey, e);
    EqualsKeeps(ps_partkey, l_partkey, e);
    EqualsKeeps(p_partkey, l_partkey, e);
    EqualsKeeps(o_orderkey, l_orderkey, e);
    EqualsKeeps(s_nationkey, n_nationkey, e);
  }

  // ----- the amount engines -----

  datatype Engine = BINARYOP | AST | TRANSFORM

  /** price * (1 - discount) - cost * quantity. */
  function AmountOf(discount: Value, price: Value, cost: Value, quantity: Value): Value {
    Apply(SUB, Apply(MUL, price, Apply(SUB, Num(1.0), discount)), Apply(MUL, cost, quantity))
  }

  lemma Distribute(p: real, d: real)
    ensures p * (1.0 - d) == p - p * d
  {
  }

  /** The expanded tree, which has no literal on the left, computes the same value, nulls included. */
  lemma ExpandedAmount(discount: Value, price: Value, cost: Value, quantity: Value)
    ensures Apply(SUB, Apply(SUB, price, Apply(MUL, price, discount)), Apply(MUL, cost, Trees.ToFloat64(quantity)))
         == AmountOf(discount, price, cost, quantity)
  {
    if price.Num? && discount.Num? {
      Distribute(price.num, discount.num);
    }
  }

  /** `compute_amount_binaryop`. */
  method ComputeAmountBinaryop(discount: seq<Value>, price: seq<Value>, cost: seq<Value>, quantity: seq<Value>)
    returns (out: seq<Value>)
    requires |discount| == |price| == |cost| == |quantity|
    ensures IsAmount(out, discount, price, cost, quantity)
  {
    var oneMinusDiscount := ScalarColumn(SUB, Num(1.0), discount);
    var discounted := BinaryOperation(MUL, price, oneMinusDiscount);
    var supplycostQuantity := BinaryOperation(MUL, cost, quantity);
    out := BinaryOperation(SUB, discounted, supplycostQuantity);
  }

  /** `compute_amount_transform`: the user-defined function, row by row. */
  method ComputeAmountTransform(discount: seq<Value>, price: seq<Value>, cost: seq<Value>, quantity: seq<Value>)
    returns (out: seq<Value>)
    requires |discount| == |price| == |cost| == |quantity|
    ensures IsAmount(out, discount, price, cost, quantity)
  {
    var n := |discount|;
    out := seq(n, r requires 0 <= r < n && |discount| == |price| == |cost| == |quantity| == n =>
      AmountOf(discount[r], price[r], cost[r], quantity[r]));
  }

  /** The nodes compute_amount_ast pushes. */
  const AMOUNT_NODES: seq<Trees.Node> := [
    Trees.ColumnReference(0), Trees.ColumnReference(1), Trees.ColumnReference(2), Trees.ColumnReference(3),
    Trees.Operation(MUL, 1, 0), Trees.Operation(SUB, 1, 4), Trees.Cast(3), Trees.Operation(MUL, 2, 6),
    Trees.Operation(SUB, 5, 7)]

  lemma AmountTree(row: seq<Value>)
    requires |row| == 4
    ensures Trees.WellFormed(AMOUNT_NODES)
    ensures Trees.Denote(AMOUNT_NODES, 8, row) == AmountOf(row[0], row[1], row[2], row[3])
  {
    var t := AMOUNT_NODES;
    assert Trees.Denote(t, 0, row) == row[0] && Trees.Denote(t, 1, row) == row[1];
    assert Trees.Denote(t, 2, row) == row[2] && Trees.Denote(t, 3, row) == row[3];
    assert Trees.Denote(t, 4, row) == Apply(MUL, row[1], row[0]);
    assert Trees.Denote(t, 5, row) == Apply(SUB, row[1], Trees.Denote(t, 4, row));
    assert Trees.Denote(t, 6, row) == Trees.ToFloat64(row[3]);
    assert Trees.Denote(t, 7, row) == Apply(MUL, row[2], Trees.Denote(t, 6, row));
    ExpandedAmount(row[0], row[1], row[2], row[3]);
  }

  /** `compute_amount_ast`. */
  method ComputeAmountAst(discount: seq<Value>, price: seq<Value>, cost: seq<Value>, quantity: seq<Value>)
    returns (out: seq<Value>)
    requires |discount| == |price| == |cost| == |quantity|
    ensures IsAmount(out, discount, price, cost, quantity)
  {
    var tree := new Trees.Tree();
    var table := [discount, price, cost, quantity];
    var discountRef := tree.Push(Trees.ColumnReference(0));
    var priceRef := tree.Push(Trees.ColumnReference(1));
    var costRef := tree.Push(Trees.ColumnReference(2));
    var quantityRef := tree.Push(Trees.ColumnReference(3));
    var priceMulDiscount := tree.Push(Trees.Operation(MUL, priceRef, discountRef));
    var priceDiscounted := tree.Push(Trees.Operation(SUB, priceRef, priceMulDiscount));
    var quantityFloat64 := tree.Push(Trees.Cast(quantityRef));
    var costMulQuantity := tree.Push(Trees.Operation(MUL, costRef, quantityFloat64));
    var result := tree.Push(Trees.Operation(SUB, priceDiscounted, costMulQuantity));
    assert tree.nodes == AMOUNT_NODES;
    out := Trees.ComputeColumn(tree.nodes, result, table, |discount|);
    forall r | 0 <= r < |discount| ensures out[r] == AmountOf(discount[r], price[r], cost[r], quantity[r]) {
      AmountTree(Trees.RowAt(table, r, |discount|));
    }
  }

  ghost predicate IsAmount(out: seq<Value>, discount: seq<Value>, price: seq<Value>, cost: seq<Value>,
      quantity: seq<Value>)
    requires |discount| == |price| == |cost| == |quantity|
  {
    |out| == |discount| && forall r :: 0 <= r < |out| ==>
        out[r] == AmountOf(discount[r], price[r], cost[r], quantity[r])
  }

  /** `compute_amount`: whichever engine is chosen, the column is the same. */
  method ComputeAmount(discount: seq<Value>, price: seq<Value>, cost: seq<Value>, quantity: seq<Value>, engine: Engine)
    returns (out: seq<Value>)
    requires |discount| == |price| == |cost| == |quantity|
    ensures IsAmount(out, discount, price, cost, quantity)
  {
    match engine
    case BINARYOP => out := ComputeAmountBinaryop(discount, price, cost, quantity);
    case AST => out := ComputeAmountAst(discount, price, cost, quantity);
    case TRANSFORM => out := ComputeAmountTransform(discount, price, cost, quantity);
  }

  lemma AmountExpr(e: Env)
    ensures Eval(AMOUNT, e)
         == AmountOf(Get(e, l_discount), Get(e, l_extendedprice), Get(e, ps_supplycost), Get(e, l_quantity))
  {
    var minus := Bin(SUB, Lit(Num(1.0)), Col(l_discount));
    assert Eval(minus, e) == Apply(SUB, Num(1.0), Get(e, l_discount)) by {
      assert Eval(Lit(Num(1.0)), e) == Num(1.0) && Eval(Col(l_discount), e) == Get(e, l_discount);
    }
    assert Eval(DISCOUNTED, e) == Apply(MUL, Eval(Col(l_extendedprice), e), Eval(minus, e));
    assert Eval(COST, e) == Apply(MUL, Eval(Col(ps_supplycost), e), Eval(Col(l_quantity), e));
  }

  // ----- the joins -----

  const LINEITEM_COLS := [l_suppkey, l_partkey, l_orderkey, l_extendedprice, l_discount, l_quantity]
  const NATION_COLS := [n_nationkey, n_name]
  const ORDERS_COLS := [o_orderkey, o_orderdate]
  const PART_COLS := [p_partkey, p_name]
  const PARTSUPP_COLS := [ps_suppkey, ps_partkey, ps_supplycost]
  const SUPPLIER_COLS := [s_suppkey, s_nationkey]

  lemma ListsReadable()
    ensures Readable(LINEITEM, LINEITEM_COLS) && Readable(NATION, NATION_COLS) && Readable(ORDERS, ORDERS_COLS)
    ensures Readable(PART, PART_COLS) && Readable(PARTSUPP, PARTSUPP_COLS) && Readable(SUPPLIER, SUPPLIER_COLS)
  {
  }

  /** The plan the joins carry out, and its scans. */
  datatype Pieces = Pieces(whole: Plan, lineitem: Plan, nations: Plan, orders: Plan, part: Plan, partsupp: Plan,
                           supplier: Plan)

  ghost predicate IsPlan(p: Pieces) {
    && p.lineitem == Scan(LINEITEM, Elements(LINEITEM_COLS), NO_FILTER)
    && p.nations == Scan(NATION, Elements(NATION_COLS), NO_FILTER)
    && p.orders == Scan(ORDERS, Elements(ORDERS_COLS), NO_FILTER)
    && p.part == Scan(PART, Elements(PART_COLS), IS_GREEN)
    && p.partsupp == Scan(PARTSUPP, Elements(PARTSUPP_COLS), NO_FILTER)
    && p.supplier == Scan(SUPPLIER, Elements(SUPPLIER_COLS), NO_FILTER)
    && p.whole == Join(Join(p.orders, Join(p.lineitem, p.part, Zip([l_partkey], [p_partkey])),
                            Zip([o_orderkey], [l_orderkey])),
                       Join(p.partsupp, Join(p.supplier, p.nations, Zip([s_nationkey], [n_nationkey])),
                            Zip([ps_suppkey], [s_suppkey])),
                       Zip([l_suppkey, l_partkey], [s_suppkey, ps_partkey]))
  }

  /** `cudf::strings::like` with the pattern of the query. */
  function IsLikeGreen(v: Value): Value {
    if v.Text? then Bool(ContainsWord(v.text, "green")) else Null
  }

  /** `data.part->table().column(1)` matched against the pattern. */
  method LikeMask(part: TableWithNames) returns (mask: seq<Value>)
    requires part.Valid() && part.colNames == PART_COLS
    ensures |mask| == |part.tbl.rows|
    ensures forall i :: 0 <= i < |mask| ==> mask[i] == Eval(IS_GREEN, part.Envs()[i])
  {
    var rows := part.tbl.rows;
    mask := seq(|rows|, i requires 0 <= i < |rows| && |rows[i]| == 2 => IsLikeGreen(rows[i][1]));
    forall i | 0 <= i < |rows| ensures mask[i] == Eval(IS_GREEN, part.Envs()[i]) {
    }
  }

  lemma GreenMentions()
    ensures Mentions(IS_GREEN) <= Elements(PART_COLS)
  {
    assert PART_COLS[1] in Elements(PART_COLS);
    assert Mentions(Col(p_name)) == {p_name};
  }

  /** The mask applied to the part table. */
  method FilterPart(part: TableWithNames, cols: set<ColName>, ghost db: Database) returns (out: TableWithNames)
    requires WellFormed(db) && part.colNames == PART_COLS && Mentions(IS_GREEN) <= cols
    requires Holds(part, Scan(PART, cols, NO_FILTER), db)
    ensures fresh(out) && Holds(out, Scan(PART, cols, IS_GREEN), db)
  {
    var mask := LikeMask(part);
    out := ApplyMask(part, mask, Selector(IS_GREEN));
    MaskDelivers(part.colNames, part.Envs(), PART, cols, IS_GREEN, db);
  }

  function JoinA(p: Pieces): Plan {
    Join(p.supplier, p.nations, Zip([s_nationkey], [n_nationkey]))
  }

  function JoinB(p: Pieces): Plan {
    Join(p.partsupp, JoinA(p), Zip([ps_suppkey], [s_suppkey]))
  }

  function JoinC(p: Pieces): Plan {
    Join(p.lineitem, p.part, Zip([l_partkey], [p_partkey]))
  }

  function JoinD(p: Pieces): Plan {
    Join(p.orders, JoinC(p), Zip([o_orderkey], [l_orderkey]))
  }

  /** Every join finds its keys on both sides and joins different tables. */
  lemma JoinsPossible(p: Pieces)
    requires IsPlan(p)
    ensures Joinable(p.supplier, p.nations, [s_nationkey], [n_nationkey])
    ensures Joinable(p.partsupp, JoinA(p), [ps_suppkey], [s_suppkey])
    ensures Joinable(p.lineitem, p.part, [l_partkey], [p_partkey])
    ensures Joinable(p.orders, JoinC(p), [o_orderkey], [l_orderkey])
  {
    assert LINEITEM_COLS[1] in Elements(LINEITEM_COLS) && LINEITEM_COLS[2] in Elements(LINEITEM_COLS);
  }

  lemma JoinLeaves(p: Pieces)
    requires IsPlan(p)
    ensures Leaves(JoinB(p)) == [PARTSUPP, SUPPLIER, NATION] && Leaves(JoinD(p)) == [ORDERS, LINEITEM, PART]
  {
    assert Leaves(p.supplier) == [SUPPLIER] && Leaves(p.nations) == [NATION] && Leaves(p.partsupp) == [PARTSUPP];
    assert Leaves(p.lineitem) == [LINEITEM] && Leaves(p.part) == [PART] && Leaves(p.orders) == [ORDERS];
    assert Leaves(JoinA(p)) == Leaves(p.supplier) + Leaves(p.nations);
    assert Leaves(JoinC(p)) == Leaves(p.lineitem) + Leaves(p.part);
    assert Leaves(JoinB(p)) == Leaves(p.partsupp) + Leaves(JoinA(p));
    assert Leaves(JoinD(p)) == Leaves(p.orders) + Leaves(JoinC(p));
  }

  lemma LastJoinPossible(p: Pieces)
    requires IsPlan(p)
    ensures Joinable(JoinD(p), JoinB(p), [l_suppkey, l_partkey], [s_suppkey, ps_partkey])
  {
    assert LINEITEM_COLS[0] in Elements(LINEITEM_COLS) && LINEITEM_COLS[1] in Elements(LINEITEM_COLS);
    assert OutColumns(p.lineitem) <= OutColumns(JoinC(p)) <= OutColumns(JoinD(p));
    assert OutColumns(p.supplier) <= OutColumns(JoinA(p)) <= OutColumns(JoinB(p));
    assert OutColumns(p.partsupp) <= OutColumns(JoinB(p));
    JoinLeaves(p);
  }

  lemma PlanConditions(p: Pieces, e: Env)
    requires IsPlan(p)
    ensures Conditions(p.whole, e) <==> PlanTests(e)
  {
    var a := Join(p.supplier, p.nations, Zip([s_nationkey], [n_nationkey]));
    var c := Join(p.lineitem, p.part, Zip([l_partkey], [p_partkey]));
    JoinConditions(p.supplier, p.nations, s_nationkey, n_nationkey, e);
    JoinConditions(p.partsupp, a, ps_suppkey, s_suppkey, e);
    JoinConditions(p.lineitem, p.part, l_partkey, p_partkey, e);
    JoinConditions(p.orders, c, o_orderkey, l_orderkey, e);
    MatchesTwo(l_suppkey, s_suppkey, l_partkey, ps_partkey, e);
  }

  const INPUTS := {n_name, o_orderdate, l_extendedprice, l_discount, ps_supplycost, l_quantity}

  const PLAN_LEAVES := [ORDERS, LINEITEM, PART, PARTSUPP, SUPPLIER, NATION]

  lemma PlanLeavesInOrder(p: Pieces)
    requires IsPlan(p)
    ensures Leaves(p.whole) == PLAN_LEAVES
  {
    JoinLeaves(p);
    assert p.whole == Join(JoinD(p), JoinB(p), Zip([l_suppkey, l_partkey], [s_suppkey, ps_partkey]));
    assert Leaves(p.whole) == Leaves(JoinD(p)) + Leaves(JoinB(p));
  }

  lemma PlanColumns(p: Pieces)
    requires IsPlan(p)
    ensures INPUTS <= OutColumns(p.whole)
  {
    var a := Join(p.supplier, p.nations, Zip([s_nationkey], [n_nationkey]));
    var b := Join(p.partsupp, a, Zip([ps_suppkey], [s_suppkey]));
    var c := Join(p.lineitem, p.part, Zip([l_partkey], [p_partkey]));
    var d := Join(p.orders, c, Zip([o_orderkey], [l_orderkey]));
    assert OutColumns(p.whole) == OutColumns(d) + OutColumns(b);
    assert OutColumns(p.nations) <= OutColumns(a) <= OutColumns(b) && OutColumns(p.partsupp) <= OutColumns(b);
    assert OutColumns(p.lineitem) <= OutColumns(c) <= OutColumns(d) && OutColumns(p.orders) <= OutColumns(d);
  }

  lemma FromIsLeaves()
    ensures multiset(SQL_FROM) == multiset(PLAN_LEAVES)
    ensures Distinct(SQL_FROM)
  {
    DistinctPermutation(SQL_FROM, PLAN_LEAVES);
  }

  lemma PlanTestsAll(p: Pieces)
    requires IsPlan(p)
    ensures forall e: Env :: Conditions(p.whole, e) <==> Tests()(e)
    ensures WhereIs(SQL_WHERE, Tests(), COMPARED)
  {
    forall e: Env
      ensures Conditions(p.whole, e) <==> Tests()(e)
      ensures Where(SQL_WHERE, e) <==> Tests()(e) && NonNull(e, COMPARED)
    {
      PlanConditions(p, e);
      PlanTestsAreWhere(e);
    }
  }

  /** The joined rows are those of FROM and WHERE exactly when no combination of stored rows passes the
      plan's tests with a null in a compared column. */
  lemma JoinedRowsIff(p: Pieces, db: Database)
    requires WellFormed(db) && IsPlan(p) && Resolves(p.whole)
    ensures multiset(ProjectedRows(p.whole, db))
         == multiset(Map(Projector(OutColumns(p.whole)), SqlRows(SQL_FROM, SQL_WHERE, db)))
       <==> NoNullPasses(Tests(), COMPARED, SQL_FROM, db)
  {
    PlanLeavesInOrder(p);
    PlanTestsAll(p);
    FromIsLeaves();
    NullsDecide(p.whole, PLAN_LEAVES, SQL, Tests(), COMPARED, db);
  }

  /** load_data and join_data. */
  method JoinTables(db: Database) returns (joined: TableWithNames, ghost p: Pieces)
    requires WellFormed(db)
    ensures fresh(joined) && Holds(joined, p.whole, db) && IsPlan(p)
    ensures multiset(joined.Envs())
         == multiset(Map(Projector(Elements(joined.colNames)), SqlRows(SQL_FROM, SQL_WHERE, db)))
       <==> NoNullPasses(Tests(), COMPARED, SQL_FROM, db)
  {
    ListsReadable();
    var lineitem, pLineitem := Read(db, LINEITEM, LINEITEM_COLS, NO_PRED);
    var nations, pNation := Read(db, NATION, NATION_COLS, NO_PRED);
    var orders, pOrders := Read(db, ORDERS, ORDERS_COLS, NO_PRED);
    var part, pPart := Read(db, PART, PART_COLS, NO_PRED);
    var partsupp, pPartsupp := Read(db, PARTSUPP, PARTSUPP_COLS, NO_PRED);
    var supplier, pSupplier := Read(db, SUPPLIER, SUPPLIER_COLS, NO_PRED);

    GreenMentions();
    var partFiltered := FilterPart(part, Elements(PART_COLS), db);
    ghost var pFiltered := Scan(PART, Elements(PART_COLS), IS_GREEN);

    p := Pieces(pPart, pLineitem, pNation, pOrders, pFiltered, pPartsupp, pSupplier);
    p := p.(whole := Join(JoinD(p), JoinB(p), Zip([l_suppkey, l_partkey], [s_suppkey, ps_partkey])));
    JoinsPossible(p);
    LastJoinPossible(p);
    var joinA, pA := JoinStep(supplier, nations, [s_nationkey], [n_nationkey], pSupplier, pNation, db);
    var joinB, pB := JoinStep(partsupp, joinA, [ps_suppkey], [s_suppkey], pPartsupp, pA, db);
    var joinC, pC := JoinStep(lineitem, partFiltered, [l_partkey], [p_partkey], pLineitem, pFiltered, db);
    var joinD, pD := JoinStep(orders, joinC, [o_orderkey], [l_orderkey], pOrders, pC, db);
    ghost var whole;
    joined, whole := JoinStep(joinD, joinB, [l_suppkey, l_partkey], [s_suppkey, ps_partkey], pD, pB, db);
    JoinedRowsIff(p, db);
  }

  // ----- the profit table -----

  const PROFIT_COLS := [nation, o_year, amount]

  /** `extract_datetime_component(YEAR)` on one element. */
  function ExtractYear(v: Value): Value {
    if v.Day? then Num(YearOfDay(v.day) as real) else Null
  }

  /** The three columns of the profit table, from one joined row. */
  function ProfitRow(e: Env): Row {
    [Get(e, n_name), ExtractYear(Get(e, o_orderdate)), Eval(AMOUNT, e)]
  }

  lemma ExtendThree(e: Env, a: (ColName, Expr), b: (ColName, Expr), c: (ColName, Expr))
    ensures Extend(e, [a, b, c]) == e[a.0 := Eval(a.1, e)][b.0 := Eval(b.1, e)][c.0 := Eval(c.1, e)]
  {
    assert [a, b, c][..2] == [a, b] && [a, b][..1] == [a] && [a][..0] == [];
    assert Extend(e, [a]) == Extend(e, [a][..0])[a.0 := Eval(a.1, e)];
    assert Extend(e, [a, b]) == Extend(e, [a, b][..1])[b.0 := Eval(b.1, e)];
    assert Extend(e, [a, b, c]) == Extend(e, [a, b, c][..2])[c.0 := Eval(c.1, e)];
  }

  lemma ProfitRowIsExtend(e: Env)
    ensures EnvOf(PROFIT_COLS, ProfitRow(e)) == Projector(Elements(PROFIT_COLS))(Computer(COMPUTE)(e))
  {
    ExtendThree(e, (nation, Col(n_name)), (o_year, Year(Col(o_orderdate))), (amount, AMOUNT));
    assert Eval(Col(n_name), e) == Get(e, n_name) && Eval(Col(o_orderdate), e) == Get(e, o_orderdate);
    assert Eval(Year(Col(o_orderdate)), e) == ExtractYear(Get(e, o_orderdate));
  }

  /** Three columns side by side. */
  method SideBySide(a: seq<Value>, b: seq<Value>, c: seq<Value>) returns (t: Table)
    requires |a| == |b| == |c|
    ensures Rectangular(t) && t.width == 3 && |t.rows| == |a|
    ensures forall i :: 0 <= i < |a| ==> t.rows[i] == [a[i], b[i], c[i]]
  {
    t := Table(3, seq(|a|, i requires 0 <= i < |a| && |a| == |b| == |c| => [a[i], b[i], c[i]]));
  }

  /** The amount column of a joined table, by any engine, is the SQL expression row by row. */
  method AmountColumn(joined: TableWithNames, engine: Engine) returns (col: seq<Value>)
    requires joined.Valid()
    requires l_discount in joined.colNames && l_extendedprice in joined.colNames
    requires ps_supplycost in joined.colNames && l_quantity in joined.colNames
    ensures |col| == |joined.Envs()|
    ensures forall i :: 0 <= i < |col| ==> col[i] == Eval(AMOUNT, joined.Envs()[i])
  {
    var discount := joined.Column(l_discount);
    var extendedprice := joined.Column(l_extendedprice);
    var supplycost := joined.Column(ps_supplycost);
    var quantity := joined.Column(l_quantity);
    col := ComputeAmount(discount.value, extendedprice.value, supplycost.value, quantity.value, engine);
    forall i | 0 <= i < |col| ensures col[i] == Eval(AMOUNT, joined.Envs()[i]) {
      AmountExpr(joined.Envs()[i]);
    }
  }

  ghost predicate HasInputs(names: seq<ColName>) {
    forall c :: c in INPUTS ==> c in names
  }

  /** The discounted price less the cost of the quantity, where all are numbers. */
  function Profit(): Env -> Value {
    e => if Get(e, l_extendedprice).Num? && Get(e, l_discount).Num? && Get(e, ps_supplycost).Num?
              && Get(e, l_quantity).Num?
         then Num(Get(e, l_extendedprice).num * (1.0 - Get(e, l_discount).num)
                  - Get(e, ps_supplycost).num * Get(e, l_quantity).num) else Null
  }

  /** The nation, the civil year of the order and the profit of a joined row. */
  ghost predicate IsProfit(e: Env, row: Env) {
    && row.Keys == {nation, o_year, amount} && row[nation] == Get(e, n_name) && row[amount] == Profit()(e)
    && (!Get(e, o_orderdate).Day? ==> row[o_year] == Null)
    && (Get(e, o_orderdate).Day? ==>
          forall year: int :: InYear(Get(e, o_orderdate).day, year) <==> row[o_year] == Num(year as real))
  }

  lemma ProfitMeans(e: Env)
    ensures IsProfit(e, Projector(Elements(PROFIT_COLS))(Computer(COMPUTE)(e)))
  {
    ProfitCells(e);
    if Get(e, o_orderdate).Day? {
      forall year: int
        ensures InYear(Get(e, o_orderdate).day, year) <==> ExtractYear(Get(e, o_orderdate)) == Num(year as real)
      {
        YearMeans(Get(e, o_orderdate).day, year);
      }
    }
  }

  lemma ProfitCells(e: Env)
    ensures Projector(Elements(PROFIT_COLS))(Computer(COMPUTE)(e))
         == map[nation := Get(e, n_name), o_year := ExtractYear(Get(e, o_orderdate)), amount := Profit()(e)]
  {
    ExtendedKeys(e);
    AmountExpr(e);
    ExtendThree(e, (nation, Col(n_name)), (o_year, Year(Col(o_orderdate))), (amount, AMOUNT));
    var row := Extend(e, COMPUTE);
    assert amount in row && row[amount] == Profit()(e);
    assert Elements(PROFIT_COLS) == {nation, o_year, amount};
    assert Restrict(row, {nation, o_year, amount})
        == map[nation := row[nation], o_year := row[o_year], amount := row[amount]];
  }

  /** The new three-column table that compute_profit puts together. */
  method ProfitTable(joined: TableWithNames, engine: Engine) returns (profit: TableWithNames)
    requires joined.Valid() && HasInputs(joined.colNames)
    ensures fresh(profit) && profit.Valid() && profit.colNames == PROFIT_COLS
    ensures profit.Envs() == Map(Projector(Elements(PROFIT_COLS)), Map(Computer(COMPUTE), joined.Envs()))
    ensures forall i :: 0 <= i < |profit.Envs()| ==> IsProfit(joined.Envs()[i], profit.Envs()[i])
  {
    var names := joined.Column(n_name);
    var dates := joined.Column(o_orderdate);
    var years := Map(ExtractYear, dates.value);
    var amounts := AmountColumn(joined, engine);
    var table := SideBySide(names.value, years, amounts);
    profit := new TableWithNames(table, PROFIT_COLS);
    var envs := joined.Envs();
    forall i | 0 <= i < |envs|
      ensures profit.Envs()[i] == Projector(Elements(PROFIT_COLS))(Computer(COMPUTE)(envs[i]))
    {
      assert table.rows[i] == ProfitRow(envs[i]);
      ProfitRowIsExtend(envs[i]);
    }
    forall i | 0 <= i < |envs| ensures IsProfit(envs[i], profit.Envs()[i]) {
      ProfitMeans(envs[i]);
    }
  }

  const PROFIT_CONTEXT := Context(GROUP_COLS, map[amount := [(SUM, sum_profit)]])

  lemma RequestsFlat()
    ensures Traverses([amount], PROFIT_CONTEXT.values) && AllSupported(PROFIT_CONTEXT.values)
    ensures Flat([amount], PROFIT_CONTEXT.values) == REQUESTS
    ensures Map(Name, REQUESTS) == [sum_profit]
  {
    var values := PROFIT_CONTEXT.values;
    assert [amount][..0] == [];
    assert Flat([amount][..0], values) == [];
    assert Flat([amount], values) == RequestsOf(amount, values[amount]);
  }

  /** Sums the amounts per nation and year. */
  method GroupProfit(profit: TableWithNames) returns (out: TableWithNames)
    requires profit.Valid() && profit.colNames == PROFIT_COLS
    ensures fresh(out) && out.Valid() && out.colNames == GROUP_COLS + [sum_profit]
    ensures Elements(out.Envs()) == Groups(profit.Envs(), Elements(GROUP_COLS), REQUESTS, true)
    ensures Distinct(out.Envs())
  {
    RequestsFlat();
    var r := ApplyGroupBy(profit, PROFIT_CONTEXT, [amount]);
    out := r.value;
    GroupTableIsGroups(profit.Envs(), GROUP_COLS, REQUESTS, out.tbl.rows);
  }

  /** Dropping the columns that the profit table lacks changes no group. */
  lemma ProfitGroups(rows: seq<Env>)
    ensures Groups(Map(Projector(Elements(PROFIT_COLS)), Map(Computer(COMPUTE), rows)),
                   Elements(GROUP_COLS), REQUESTS, true)
         == Groups(Map(Computer(COMPUTE), rows), Elements(GROUP_COLS), REQUESTS, true)
  {
    var keys, cols, whole := Elements(GROUP_COLS), Elements(PROFIT_COLS), Map(Computer(COMPUTE), rows);
    forall e | e in whole ensures keys <= e.Keys && Restrict(Projector(cols)(e), keys) == Restrict(e, keys) {
      var i :| 0 <= i < |whole| && whole[i] == e;
      ExtendKeys(rows[i], COMPUTE);
      RestrictTwice(e, keys, cols);
    }
    GroupsMap(Projector(cols), whole, keys, REQUESTS, true);
  }

  // ----- the query -----

  lemma ExtendedKeys(e: Env)
    ensures nation in Extend(e, COMPUTE) && o_year in Extend(e, COMPUTE)
    ensures Extend(e, COMPUTE)[nation] == Get(e, n_name)
    ensures Extend(e, COMPUTE)[o_year] == ExtractYear(Get(e, o_orderdate))
  {
    ExtendThree(e, (nation, Col(n_name)), (o_year, Year(Col(o_orderdate))), (amount, AMOUNT));
    assert Eval(Col(n_name), e) == Get(e, n_name) && Eval(Col(o_orderdate), e) == Get(e, o_orderdate);
  }

  lemma RowKeysNonNull(e: Env)
    requires n_name in e && e[n_name] != Null && o_orderdate in e && e[o_orderdate].Day?
    ensures NullFree(Restrict(Extend(e, COMPUTE), Elements(GROUP_COLS)))
  {
    ExtendedKeys(e);
  }

  lemma RowTyped(db: Database, e: Env, from: seq<TableId>)
    requires WellFormed(db) && NonNullOn(db, {n_name}) && DatesTyped(db) && Stored(e, from, db)
    requires NATION in from && ORDERS in from
    ensures n_name in e && e[n_name] != Null && o_orderdate in e && e[o_orderdate].Day?
  {
    assert n_name in Columns(NATION) && o_orderdate in Columns(ORDERS);
    var nationRow := StoredCell(e, from, db, n_name);
    var orderRow := StoredCell(e, from, db, o_orderdate);
  }

  lemma GroupKeysNonNull(db: Database)
    requires WellFormed(db) && NonNullOn(db, {n_name}) && DatesTyped(db)
    ensures KeysNonNull(SQL, db)
  {
    FromIsLeaves();
    var from := SQL_FROM;
    assert from[5] == NATION && from[4] == ORDERS;
    forall e | e in SqlRows(SQL_FROM, SQL_WHERE, db)
      ensures NullFree(Restrict(Extend(e, COMPUTE), Elements(GROUP_COLS)))
    {
      SqlRowsStored(SQL_FROM, SQL_WHERE, db, e);
      RowTyped(db, e, from);
      RowKeysNonNull(e);
    }
  }

  lemma InputsListed(p: Plan)
    requires INPUTS <= OutColumns(p)
    ensures DeliversInputs(p, SQL)
  {
    assert Mentions(Col(n_name)) == {n_name} && Mentions(Year(Col(o_orderdate))) == {o_orderdate};
    assert Mentions(Bin(SUB, Lit(Num(1.0)), Col(l_discount))) == {l_discount};
    assert Mentions(AMOUNT) == {l_extendedprice, l_discount, ps_supplycost, l_quantity};
  }

  lemma FromColumns()
    ensures COMPARED <= ColumnsOf(SQL_FROM)
  {
    var from := SQL_FROM;
    assert from[0] == PART && from[1] == SUPPLIER && from[2] == LINEITEM;
    assert from[3] == PARTSUPP && from[4] == ORDERS && from[5] == NATION;
    ColumnsFrom(COMPARED, from);
  }

  /** Tables with order dates, and without nulls in the compared columns and in n_name. */
  lemma CleanTables(db: Database)
    requires WellFormed(db) && NonNullOn(db, COMPARED + {n_name}) && DatesTyped(db)
    ensures NoNullPasses(Tests(), COMPARED, SQL_FROM, db) && KeysNonNull(SQL, db)
  {
    FromColumns();
    CleanColumns(Tests(), COMPARED, SQL_FROM, db);
    GroupKeysNonNull(db);
  }

  /** Grouping what the plan delivers gives the groups of what it tests. */
  lemma JoinedGroups(rows: seq<Env>, p: Pieces, db: Database)
    requires WellFormed(db) && IsPlan(p)
    requires Resolves(p.whole) && multiset(rows) == multiset(ProjectedRows(p.whole, db))
    ensures Groups(Map(Computer(SQL.compute), rows), SQL.keys, SQL.requests, true) == Delivered(SQL, Tests(), db)
  {
    PlanLeavesInOrder(p);
    PlanColumns(p);
    PlanTestsAll(p);
    FromIsLeaves();
    InputsListed(p.whole);
    PlanDelivers(p.whole, SQL, Tests(), db, rows);
  }

  lemma RequestNames()
    ensures DistinctNames(SQL.keys, SQL.requests)
  {
  }

  lemma WhereIsTests()
    ensures WhereIs(SQL_WHERE, Tests(), COMPARED)
  {
    forall e: Env ensures Where(SQL_WHERE, e) <==> Tests()(e) && NonNull(e, COMPARED) {
      PlanTestsAreWhere(e);
    }
  }

  /** When the delivered groups are the rows of the SQL text: where no null passes, exactly when no group key
      is null; and where every passing combination that SQL leaves out and cudf groups has a positive amount,
      exactly when there is none and no group key is null. */
  lemma Decided(db: Database)
    requires WellFormed(db)
    ensures NoNullPasses(Tests(), COMPARED, SQL_FROM, db) ==>
              (Delivered(SQL, Tests(), db) == SqlAnswer(SQL, db) <==> KeysNonNull(SQL, db))
    ensures ExtrasPay(SQL, Tests(), COMPARED, amount, db) ==>
              (Delivered(SQL, Tests(), db) == SqlAnswer(SQL, db)
          <==> NoExtra(SQL, Tests(), COMPARED, db) && KeysNonNull(SQL, db))
  {
    FromIsLeaves();
    WhereIsTests();
    RequestNames();
    if NoNullPasses(Tests(), COMPARED, SQL_FROM, db) {
      DeliveredIsAnswer(SQL, Tests(), COMPARED, db);
    }
    if ExtrasPay(SQL, Tests(), COMPARED, amount, db) {
      SumsDecide(SQL, Tests(), COMPARED, amount, sum_profit, db);
    }
  }

  // ----- the answer, written out -----

  /** The conditions, between texts and keys; keys agree when both are null. */
  ghost predicate Passes(e: Env) {
    && Get(e, p_name).Text? && (exists before, after :: Get(e, p_name).text == before + "green" + after)
    && Get(e, s_suppkey) == Get(e, l_suppkey) && Get(e, ps_suppkey) == Get(e, l_suppkey)
    && Get(e, ps_partkey) == Get(e, l_partkey) && Get(e, p_partkey) == Get(e, l_partkey)
    && Get(e, o_orderkey) == Get(e, l_orderkey) && Get(e, s_nationkey) == Get(e, n_nationkey)
  }

  ghost function Passing(): Env -> bool {
    e => Passes(e)
  }

  lemma PassesMeans(e: Env)
    ensures PlanTests(e) <==> Passes(e)
    ensures Where(SQL_WHERE, e) <==> Passes(e) && NonNull(e, COMPARED)
  {
    assert Eval(Col(p_name), e) == Get(e, p_name);
    if Get(e, p_name).Text? {
      ContainsMeans(Get(e, p_name).text, "green");
    }
    PlanTestsAreWhere(e);
  }

  /** Combinations of one nation with an order of one civil year. */
  predicate OfYear(e: Env, name: Value, year: int) {
    Get(e, n_name) == name && Get(e, o_orderdate).Day? && InYear(Get(e, o_orderdate).day, year)
  }

  function OfNationAndYear(name: Value, year: int): Env -> bool {
    e => OfYear(e, name, year)
  }

  /** A row of the answer: a nation that is not null and a civil year in which one of its passing combinations
      was ordered, with the sum of their profits. */
  ghost predicate IsGroup(r: Env, db: Database)
    requires forall t: TableId :: t in db
  {
    IsRowOf(r, Filter(Passing(), Cross(SQL_FROM, db)))
  }

  ghost predicate IsRowOf(r: Env, rows: seq<Env>) {
    exists e, year :: && e in rows && Get(e, n_name) != Null && OfYear(e, Get(e, n_name), year)
                      && r == RowOf(rows, Get(e, n_name), year)
  }

  /** The row of one nation and year. */
  function RowOf(rows: seq<Env>, name: Value, year: int): Env {
    map[nation := name, o_year := Num(year as real),
        sum_profit := SumOrNull(Map(Profit(), Filter(OfNationAndYear(name, year), rows)))]
  }

  function ByNationYear(): Env -> Env {
    e => map[nation := Get(e, n_name), o_year := ExtractYear(Get(e, o_orderdate))]
  }

  lemma KeyAndValue(e: Env)
    ensures ByNationYear()(e) == KeyOf(SQL, e) && Profit()(e) == Get(Extend(e, SQL.compute), amount)
  {
    ExtendedKeys(e);
    AmountExpr(e);
    ExtendThree(e, (nation, Col(n_name)), (o_year, Year(Col(o_orderdate))), (amount, AMOUNT));
    assert Elements(GROUP_COLS) == {nation, o_year};
  }

  /** The group of a combination is its nation and the civil year of its order. */
  lemma RowMeans(rows: seq<Env>, e: Env, year: int)
    requires OfYear(e, Get(e, n_name), year)
    ensures SumRow(rows, ByNationYear(), Profit(), sum_profit, e) == RowOf(rows, Get(e, n_name), year)
  {
    YearMeans(Get(e, o_orderdate).day, year);
    forall other: Env ensures SameAs(ByNationYear(), e)(other) == OfNationAndYear(Get(e, n_name), year)(other) {
      SameNationYear(e, other, year);
    }
    FilterSame(SameAs(ByNationYear(), e), OfNationAndYear(Get(e, n_name), year), rows);
  }

  lemma SameNationYear(e: Env, other: Env, year: int)
    requires OfYear(e, Get(e, n_name), year)
    ensures ByNationYear()(other) == ByNationYear()(e) <==> OfYear(other, Get(e, n_name), year)
  {
    YearMeans(Get(e, o_orderdate).day, year);
    var a, b := ByNationYear()(other), ByNationYear()(e);
    assert a == b <==> a[nation] == b[nation] && a[o_year] == b[o_year];
    if Get(other, o_orderdate).Day? {
      YearMeans(Get(other, o_orderdate).day, year);
    }
  }

  lemma SumsMean(db: Database, r: Env)
    requires WellFormed(db)
    ensures r in Delivered(SQL, Tests(), db)
       <==> IsSum(r, Filter(Passing(), Cross(SQL_FROM, db)), ByNationYear(), Profit(), sum_profit)
  {
    forall e: Env ensures Tests()(e) == Passing()(e) {
      PassesMeans(e);
    }
    forall e: Env ensures ByNationYear()(e) == KeyOf(SQL, e) && Profit()(e) == Get(Extend(e, SQL.compute), amount) {
      KeyAndValue(e);
    }
    FromIsLeaves();
    DeliveredSums(SQL, Tests(), Passing(), ByNationYear(), Profit(), amount, sum_profit, db, r);
  }

  lemma GroupsMean(db: Database, r: Env)
    requires WellFormed(db)
    ensures r in Delivered(SQL, Tests(), db) <==> IsGroup(r, db)
  {
    SumsMean(db, r);
    var rows := Filter(Passing(), Cross(SQL_FROM, db));
    if IsSum(r, rows, ByNationYear(), Profit(), sum_profit) {
      SumIsRow(r, rows);
    }
    if IsGroup(r, db) {
      RowIsSum(r, rows);
    }
  }

  lemma SumIsRow(r: Env, rows: seq<Env>)
    requires IsSum(r, rows, ByNationYear(), Profit(), sum_profit)
    ensures IsRowOf(r, rows)
  {
    var e :| e in rows && NullFree(ByNationYear()(e)) && r == SumRow(rows, ByNationYear(), Profit(), sum_profit, e);
    KeyPresent(e);
    var year :| OfYear(e, Get(e, n_name), year);
    RowMeans(rows, e, year);
  }

  lemma RowIsSum(r: Env, rows: seq<Env>)
    requires IsRowOf(r, rows)
    ensures IsSum(r, rows, ByNationYear(), Profit(), sum_profit)
  {
    var e, year :| && e in rows && Get(e, n_name) != Null && OfYear(e, Get(e, n_name), year)
                   && r == RowOf(rows, Get(e, n_name), year);
    RowMeans(rows, e, year);
    YearPresent(e, year);
  }

  lemma YearPresent(e: Env, year: int)
    requires Get(e, n_name) != Null && OfYear(e, Get(e, n_name), year)
    ensures NullFree(ByNationYear()(e))
  {
  }

  lemma KeyPresent(e: Env)
    requires NullFree(ByNationYear()(e))
    ensures Get(e, n_name) != Null && exists year :: OfYear(e, Get(e, n_name), year)
  {
    var key := ByNationYear()(e);
    assert nation in key && o_year in key;
    assert key[nation] != Null && key[o_year] != Null;
    var day := Get(e, o_orderdate).day;
    YearMeans(day, YearOfDay(day));
    assert OfYear(e, Get(e, n_name), YearOfDay(day));
  }

  /** By nation, nulls excluded, and within a nation from the last year to the first. */
  ghost predicate ByNationThenYear(envs: seq<Env>) {
    forall i, j :: 0 <= i < j < |envs| ==>
      || Below(Get(envs[i], nation), Get(envs[j], nation))
      || (Get(envs[i], nation) == Get(envs[j], nation) && Get(envs[i], o_year).Num? && Get(envs[j], o_year).Num?
            && Get(envs[i], o_year).num >= Get(envs[j], o_year).num)
  }

  lemma SortedMeans(envs: seq<Env>)
    requires SortedBy(envs, GROUP_COLS, [ASCENDING, DESCENDING])
    requires forall e :: e in envs ==> Get(e, o_year).Num?
    ensures ByNationThenYear(envs)
  {
    forall i, j | 0 <= i < j < |envs|
      ensures || Below(Get(envs[i], nation), Get(envs[j], nation))
              || (Get(envs[i], nation) == Get(envs[j], nation) && Get(envs[i], o_year).Num? && Get(envs[j], o_year).Num?
                    && Get(envs[i], o_year).num >= Get(envs[j], o_year).num)
    {
      assert envs[i] in envs && envs[j] in envs;
      var a, b := SelectEnv(GROUP_COLS)(envs[i]), SelectEnv(GROUP_COLS)(envs[j]);
      assert a[0] == Get(envs[i], nation) && b[0] == Get(envs[j], nation);
      assert a[1] == Get(envs[i], o_year) && b[1] == Get(envs[j], o_year);
      assert InOrder(a, b, [ASCENDING, DESCENDING]);
      if a != b {
        var k: nat :| Precedes(a, b, [ASCENDING, DESCENDING], k);
        assert k == 0 || a[..k][0] == b[..k][0];
      }
    }
  }

  lemma AnswerMeans(db: Database, envs: seq<Env>)
    requires WellFormed(db) && Elements(envs) == Delivered(SQL, Tests(), db)
    requires SortedBy(envs, GROUP_COLS, [ASCENDING, DESCENDING])
    ensures forall row :: row in envs <==> IsGroup(row, db)
    ensures ByNationThenYear(envs)
  {
    forall row: Env ensures row in envs <==> IsGroup(row, db) {
      assert row in Elements(envs) <==> row in envs;
      GroupsMean(db, row);
    }
    SortedMeans(envs);
  }

  /** `load_data` and `compute_profit`, for all tables and with every engine: the program delivers the groups
      of the combinations that pass the plan's tests, each once, by nation and then by descending year.
      Where no null passes the tests, these are the rows of the SQL text exactly when no group key is null. */
  method RunQ9(db: Database, engine: Engine) returns (r: Result<TableWithNames>)
    requires WellFormed(db)
    ensures r.Ok? && r.value.Valid() && r.value.colNames == GROUP_COLS + [sum_profit]
    ensures Elements(r.value.Envs()) == Delivered(SQL, Tests(), db) && Distinct(r.value.Envs())
    ensures forall row :: row in r.value.Envs() <==> IsGroup(row, db)
    ensures ByNationThenYear(r.value.Envs())
    ensures NoNullPasses(Tests(), COMPARED, SQL_FROM, db) ==>
              (Elements(r.value.Envs()) == SqlAnswer(SQL, db) <==> KeysNonNull(SQL, db))
    ensures ExtrasPay(SQL, Tests(), COMPARED, amount, db) ==>
              (Elements(r.value.Envs()) == SqlAnswer(SQL, db)
          <==> NoExtra(SQL, Tests(), COMPARED, db) && KeysNonNull(SQL, db))
  {
    var joined, p := JoinTables(db);
    PlanColumns(p);
    JoinedGroups(joined.Envs(), p, db);
    ProfitGroups(joined.Envs());
    var profit := ProfitTable(joined, engine);
    var grouped := GroupProfit(profit);
    r := ApplyOrderBy(grouped, GROUP_COLS, [ASCENDING, DESCENDING]);
    SameElements(grouped.Envs(), r.value.Envs());
    AnswerMeans(db, r.value.Envs());
    Decided(db);
  }
}
