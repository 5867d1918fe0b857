/** The NDS-H tables and the columns that belong to them. */
module Schema {

  datatype TableId = CUSTOMER | LINEITEM | NATION | ORDERS | PART | PARTSUPP | REGION | SUPPLIER | DERIVED

  /** A column name, as the table that declares it and its position there. Every name of the schema
      belongs to one table, so the pair stands for the name; DERIVED holds the computed columns. */
  datatype ColName = Column(table: TableId, index: nat)

  const o_orderkey := Column(ORDERS, 0)
  const o_custkey := Column(ORDERS, 1)
  const o_orderstatus := Column(ORDERS, 2)
  const o_totalprice := Column(ORDERS, 3)
  const o_orderdate := Column(ORDERS, 4)
  const o_orderpriority := Column(ORDERS, 5)
  const o_clerk := Column(ORDERS, 6)
  const o_shippriority := Column(ORDERS, 7)
  const o_comment := Column(ORDERS, 8)

  const l_orderkey := Column(LINEITEM, 0)
  const l_partkey := Column(LINEITEM, 1)
  const l_suppkey := Column(LINEITEM, 2)
  const l_linenumber := Column(LINEITEM, 3)
  const l_quantity := Column(LINEITEM, 4)
  const l_extendedprice := Column(LINEITEM, 5)
  const l_discount := Column(LINEITEM, 6)
  const l_tax := Column(LINEITEM, 7)
  const l_returnflag := Column(LINEITEM, 8)
  const l_linestatus := Column(LINEITEM, 9)
  const l_shipdate := Column(LINEITEM, 10)
  const l_commitdate := Column(LINEITEM, 11)
  const l_receiptdate := Column(LINEITEM, 12)
  const l_shipinstruct := Column(LINEITEM, 13)
  const l_shipmode := Column(LINEITEM, 14)
  const l_comment := Column(LINEITEM, 15)

  const p_partkey := Column(PART, 0)
  const p_name := Column(PART, 1)
  const p_mfgr := Column(PART, 2)
  const p_brand := Column(PART, 3)
  const p_type := Column(PART, 4)
  const p_size := Column(PART, 5)
  const p_container := Column(PART, 6)
  const p_retailprice := Column(PART, 7)
  const p_comment := Column(PART, 8)

  const ps_partkey := Column(PARTSUPP, 0)
  const ps_suppkey := Column(PARTSUPP, 1)
  const ps_availqty := Column(PARTSUPP, 2)
  const ps_supplycost := Column(PARTSUPP, 3)
  const ps_comment := Column(PARTSUPP, 4)

  const s_suppkey := Column(SUPPLIER, 0)
  const s_name := Column(SUPPLIER, 1)
  const s_address := Column(SUPPLIER, 2)
  const s_nationkey := Column(SUPPLIER, 3)
  const s_phone := Column(SUPPLIER, 4)
  const s_acctbal := Column(SUPPLIER, 5)
  const s_comment := Column(SUPPLIER, 6)

  const c_custkey := Column(CUSTOMER, 0)
  const c_name := Column(CUSTOMER, 1)
  const c_address := Column(CUSTOMER, 2)
  const c_nationkey := Column(CUSTOMER, 3)
  const c_phone := Column(CUSTOMER, 4)
  const c_acctbal := Column(CUSTOMER, 5)
  const c_mktsegment := Column(CUSTOMER, 6)
  const c_comment := Column(CUSTOMER, 7)

  const n_nationkey := Column(NATION, 0)
  const n_name := Column(NATION, 1)
  const n_regionkey := Column(NATION, 2)
  const n_comment := Column(NATION, 3)

  const r_regionkey := Column(REGION, 0)
  const r_name := Column(REGION, 1)
  const r_comment := Column(REGION, 2)

  const revenue := Column(DERIVED, 0)
  const nation := Column(DERIVED, 1)
  const o_year := Column(DERIVED, 2)
  const amount := Column(DERIVED, 3)
  const sum_profit := Column(DERIVED, 4)

  /** How many columns a table has. */
  function Width(t: TableId): nat {
    match t
    case ORDERS => 9
    case LINEITEM => 16
    case PART => 9
    case PARTSUPP => 5
    case SUPPLIER => 7
    case CUSTOMER => 8
    case NATION => 4
    case REGION => 3
    case DERIVED => 5
  }

  function SchemaList(t: TableId): seq<ColName> {
    seq(Width(t), i requires 0 <= i < Width(t) => Column(t, i))
  }

  /** The lists hold the names of every table, in their order. */
  lemma SchemaListed()
    ensures SchemaList(ORDERS) == [o_orderkey, o_custkey, o_orderstatus, o_totalprice, o_orderdate, o_orderpriority,
                                   o_clerk, o_shippriority, o_comment]
    ensures SchemaList(LINEITEM) == [l_orderkey, l_partkey, l_suppkey, l_linenumber, l_quantity, l_extendedprice,
                                     l_discount, l_tax, l_returnflag, l_linestatus, l_shipdate, l_commitdate,
                                     l_receiptdate, l_shipinstruct, l_shipmode, l_comment]
    ensures SchemaList(PART) == [p_partkey, p_name, p_mfgr, p_brand, p_type, p_size, p_container, p_retailprice,
                                 p_comment]
    ensures SchemaList(PARTSUPP) == [ps_partkey, ps_suppkey, ps_availqty, ps_supplycost, ps_comment]
    ensures SchemaList(SUPPLIER) == [s_suppkey, s_name, s_address, s_nationkey, s_phone, s_acctbal, s_comment]
    ensures SchemaList(CUSTOMER) == [c_custkey, c_name, c_address, c_nationkey, c_phone, c_acctbal, c_mktsegment,
                                     c_comment]
    ensures SchemaList(NATION) == [n_nationkey, n_name, n_regionkey, n_comment]
    ensures SchemaList(REGION) == [r_regionkey, r_name, r_comment]
  {
  }

  /** The columns of a table. */
  function Columns(t: TableId): (cols: set<ColName>)
    ensures forall c :: c in cols <==> c.table == t && c.index < Width(t)
  {
    set i | 0 <= i < Width(t) :: Column(t, i)
  }
}
