/** The revenue column of queries 5 and 10: computed by column operations, appended in place, summed
    per group. */
module RevenueColumn {
  import opened GroupBy
  import opened Grouping
  import opened NullRows
  import opened Queries
  import opened Relational
  import opened Schema
  import opened Sequences
  import opened Tables
  import opened Values

  const REVENUE := Bin(MUL, Col(l_extendedprice), Bin(SUB, Lit(Num(1.0)), Col(l_discount)))

  /** l_extendedprice * (1 - l_discount), by two column operations. */
  function CalculateRevenue(extendedprice: seq<Value>, discount: seq<Value>): seq<Value>
    requires |extendedprice| == |discount|
  {
    BinaryOperation(MUL, extendedprice, ScalarColumn(SUB, Num(1.0), discount))
  }

  lemma AppendOne(names: seq<ColName>, row: Row, name: ColName, x: Expr, v: Value)
    requires |row| == |names| && name !in names && v == Eval(x, EnvOf(names, row))
    ensures EnvOf(names + [name], row + [v]) == Computer([(name, x)])(EnvOf(names, row))
  {
    EnvConcat(names, row, [name], [v]);
    OneCell(name, v);
    ExtendOne(EnvOf(names, row), name, x);
    AddCell(EnvOf(names, row), name, v);
  }

  lemma OneCell(name: ColName, v: Value)
    ensures EnvOf([name], [v]) == map[name := v]
  {
    FindDistinct([name], 0);
  }

  lemma AddCell(e: Env, name: ColName, v: Value)
    ensures e + map[name := v] == e[name := v]
  {
  }

  lemma ExtendOne(e: Env, name: ColName, x: Expr)
    ensures Extend(e, [(name, x)]) == e[name := Eval(x, e)]
  {
    assert [(name, x)][..0] == [];
    assert Extend(e, [(name, x)][..0]) == e;
  }

  /** Appending a column that holds the values of an expression adds a computed column. */
  lemma AppendIsExtend(names: seq<ColName>, rows: seq<Row>, name: ColName, x: Expr, col: seq<Value>, rows': seq<Row>)
    requires forall i :: 0 <= i < |rows| ==> |rows[i]| == |names|
    requires name !in names && |col| == |rows| == |rows'|
    requires forall i :: 0 <= i < |rows| ==> rows'[i] == rows[i] + [col[i]]
    requires forall i :: 0 <= i < |rows| ==> col[i] == Eval(x, EnvOf(names, rows[i]))
    ensures RowsOf(names + [name], rows') == Map(Computer([(name, x)]), RowsOf(names, rows))
  {
    var got, want := RowsOf(names + [name], rows'), Map(Computer([(name, x)]), RowsOf(names, rows));
    forall i | 0 <= i < |rows| ensures got[i] == want[i] {
      AppendOne(names, rows[i], name, x, col[i]);
    }
  }

  lemma RevenueOf(e: Env)
    ensures Eval(REVENUE, e) == Apply(MUL, Get(e, l_extendedprice), Apply(SUB, Num(1.0), Get(e, l_discount)))
  {
    var minus := Bin(SUB, Lit(Num(1.0)), Col(l_discount));
    assert Eval(minus, e) == Apply(SUB, Eval(Lit(Num(1.0)), e), Eval(Col(l_discount), e));
  }

  /** Computes the revenue column and appends it. */
  method AppendRevenue(table: TableWithNames)
    requires table.Valid() && l_extendedprice in table.colNames && l_discount in table.colNames
    requires revenue !in table.colNames
    modifies table
    ensures table.Valid() && table.colNames == old(table.colNames) + [revenue]
    ensures table.Envs() == Map(Computer([(revenue, REVENUE)]), old(table.Envs()))
  {
    var extendedprice := table.Column(l_extendedprice);
    var discount := table.Column(l_discount);
    var col := CalculateRevenue(extendedprice.value, discount.value);
    ghost var names, rows := table.colNames, table.tbl.rows;
    forall i | 0 <= i < |rows| ensures col[i] == Eval(REVENUE, EnvOf(names, rows[i])) {
      RevenueOf(EnvOf(names, rows[i]));
    }
    table.Append(col, revenue);
    AppendIsExtend(names, rows, revenue, REVENUE, col, table.tbl.rows);
  }

  /** Prices are positive and discounts are below one. */
  ghost predicate PositivePrices(db: Database)
    requires LINEITEM in db
  {
    forall e :: e in db[LINEITEM] ==>
      IsPositive(Get(e, l_extendedprice)) && Get(e, l_discount).Num? && Get(e, l_discount).num < 1.0
  }

  lemma Product(p: real, d: real)
    requires p > 0.0 && d < 1.0
    ensures p * (1.0 - d) > 0.0
  {
  }

  /** Then every combination of stored rows has a positive revenue. */
  lemma RevenuePays(e: Env, from: seq<TableId>, db: Database)
    requires WellFormed(db) && Stored(e, from, db) && LINEITEM in from && PositivePrices(db)
    ensures IsPositive(Get(Extend(e, [(revenue, REVENUE)]), revenue))
  {
    ExtendOne(e, revenue, REVENUE);
    RevenueOf(e);
    assert l_extendedprice in Columns(LINEITEM) && l_discount in Columns(LINEITEM);
    var i :| 0 <= i < |from| && from[i] == LINEITEM;
    var row := Restrict(e, Columns(LINEITEM));
    assert row in db[from[i]];
    assert Get(row, l_extendedprice) == Get(e, l_extendedprice) && Get(row, l_discount) == Get(e, l_discount);
    Product(Get(e, l_extendedprice).num, Get(e, l_discount).num);
  }

  // ----- grouping -----

  const REQUESTS := [Request(revenue, SUM, revenue)]

  function RevenueContext(keys: seq<ColName>): Context {
    Context(keys, map[revenue := [(SUM, revenue)]])
  }

  lemma RequestsFlat(keys: seq<ColName>)
    ensures Traverses([revenue], RevenueContext(keys).values) && AllSupported(RevenueContext(keys).values)
    ensures Flat([revenue], RevenueContext(keys).values) == REQUESTS
    ensures Map(Name, REQUESTS) == [revenue]
  {
    var values := RevenueContext(keys).values;
    assert [revenue][..0] == [];
    assert Flat([revenue][..0], values) == [];
    assert Flat([revenue], values) == RequestsOf(revenue, values[revenue]);
  }

  /** Sums the revenue per key. */
  method GroupRevenue(table: TableWithNames, keys: seq<ColName>) returns (out: TableWithNames)
    requires table.Valid() && Elements(keys) <= Elements(table.colNames) && revenue in table.colNames
    requires keys != [] && Distinct(keys + [revenue])
    ensures fresh(out) && out.Valid() && out.colNames == keys + [revenue]
    ensures Elements(out.Envs()) == Groups(table.Envs(), Elements(keys), REQUESTS, true)
    ensures Distinct(out.Envs())
  {
    RequestsFlat(keys);
    var r := ApplyGroupBy(table, RevenueContext(keys), [revenue]);
    out := r.value;
    GroupTableIsGroups(table.Envs(), keys, REQUESTS, out.tbl.rows);
  }

  lemma ComputedRevenue()
    ensures Computed([(revenue, REVENUE)]) == {revenue}
    ensures Mentions(REVENUE) == {l_extendedprice, l_discount}
  {
    assert [(revenue, REVENUE)][0] in [(revenue, REVENUE)];
    assert Mentions(Bin(SUB, Lit(Num(1.0)), Col(l_discount))) == {l_discount};
  }
}
