/** `table_with_names` and the helpers of cpp/benchmarks/ndsh/utilities.cpp, over tables stored as
    sequences of rows. The libcudf calls are given by what their documentation promises, so joins
    deliver index pairs and group-bys deliver groups in an order no caller may rely on. */
module Tables {
  import opened Grouping
  import opened Relational
  import opened Schema
  import opened Sequences
  import opened Values

  datatype Error =
    | ColumnNotFound(c: ColName)
    | UnsupportedAggregation
    | KeyCountMismatch
    | NoKeys
    | OrderCountMismatch
    | SizeMismatch

  datatype Result<+T> = Ok(value: T) | Err(error: Error) {
    predicate IsFailure() { Err? }
    function PropagateFailure<U>(): Result<U>
      requires Err?
    {
      Err(error)
    }
    function Extract(): T
      requires Ok?
    {
      value
    }
  }

  type Row = seq<Value>

  datatype Table = Table(width: nat, rows: seq<Row>)

  ghost predicate Rectangular(t: Table) {
    forall i :: 0 <= i < |t.rows| ==> |t.rows[i]| == t.width
  }

  // ----- names -----

  /** `std::find`: the first position of a name, or the length of the list. */
  function Find(names: seq<ColName>, c: ColName): (i: nat)
    ensures i <= |names|
    ensures i < |names| ==> names[i] == c
    ensures forall j :: 0 <= j < i ==> names[j] != c
  {
    if names == [] || names[0] == c then 0 else 1 + Find(names[1..], c)
  }

  /** A row read by name, as `column_id` reads it. */
  function EnvOf(names: seq<ColName>, row: Row): (e: Env)
    requires |row| == |names|
    ensures e.Keys == Elements(names)
  {
    map c | c in names :: row[Find(names, c)]
  }

  function RowsOf(names: seq<ColName>, rows: seq<Row>): (envs: seq<Env>)
    requires forall i :: 0 <= i < |rows| ==> |rows[i]| == |names|
    ensures |envs| == |rows|
    ensures forall i :: 0 <= i < |rows| ==> envs[i] == EnvOf(names, rows[i])
    ensures AllKeyed(envs, Elements(names))
  {
    if rows == [] then [] else [EnvOf(names, rows[0])] + RowsOf(names, rows[1..])
  }

  lemma {:induction false} FindConcat(n1: seq<ColName>, n2: seq<ColName>, c: ColName)
    ensures Find(n1 + n2, c) == if c in n1 then Find(n1, c) else |n1| + Find(n2, c)
  {
    if n1 == [] {
      assert n1 + n2 == n2;
    } else {
      assert (n1 + n2)[1..] == n1[1..] + n2;
      FindConcat(n1[1..], n2, c);
    }
  }

  lemma EnvConcat(n1: seq<ColName>, r1: Row, n2: seq<ColName>, r2: Row)
    requires |r1| == |n1| && |r2| == |n2| && Elements(n1) !! Elements(n2)
    ensures EnvOf(n1 + n2, r1 + r2) == EnvOf(n1, r1) + EnvOf(n2, r2)
  {
    var e := EnvOf(n1 + n2, r1 + r2);
    forall c | c in n1 + n2 ensures e[c] == (EnvOf(n1, r1) + EnvOf(n2, r2))[c] {
      FindConcat(n1, n2, c);
      assert c in n2 ==> c in Elements(n2) && c !in Elements(n1);
    }
    assert Elements(n1 + n2) == Elements(n1) + Elements(n2);
  }

  lemma GetAt(names: seq<ColName>, row: Row, c: ColName)
    requires |row| == |names| && Find(names, c) < |names|
    ensures Get(EnvOf(names, row), c) == row[Find(names, c)]
  {
    assert c in names;
  }

  // ----- expressions with positional column references -----

  datatype Ast =
    | ColumnReference(index: nat)
    | Literal(v: Value)
    | Operation(op: Operator, l: Ast, r: Ast)

  predicate InRange(a: Ast, width: nat) {
    match a
    case ColumnReference(i) => i < width
    case Literal(_) => true
    case Operation(_, l, r) => InRange(l, width) && InRange(r, width)
  }

  /** `cudf::compute_column` on one row. */
  function Evaluate(a: Ast, row: Row): Value
    requires InRange(a, |row|)
  {
    match a
    case ColumnReference(i) => row[i]
    case Literal(v) => v
    case Operation(op, l, r) => Apply(op, Evaluate(l, row), Evaluate(r, row))
  }

  /** The expression over names that a positional expression stands for. */
  function Named(a: Ast, names: seq<ColName>): Expr
    requires InRange(a, |names|)
  {
    match a
    case ColumnReference(i) => Col(names[i])
    case Literal(v) => Lit(v)
    case Operation(op, l, r) => Bin(op, Named(l, names), Named(r, names))
  }

  lemma FindDistinct(names: seq<ColName>, i: nat)
    requires Distinct(names) && i < |names|
    ensures Find(names, names[i]) == i
  {
  }

  lemma {:induction false} EvaluateByName(a: Ast, names: seq<ColName>, row: Row)
    requires Distinct(names) && |row| == |names| && InRange(a, |names|)
    ensures Evaluate(a, row) == Eval(Named(a, names), EnvOf(names, row))
    ensures Mentions(Named(a, names)) <= Elements(names)
  {
    match a
    case ColumnReference(i) =>
      FindDistinct(names, i);
      assert names[i] in names;
    case Literal(_) =>
    case Operation(_, l, r) => EvaluateByName(l, names, row); EvaluateByName(r, names, row);
  }

  // ----- libcudf -----

  /** The values of the listed columns of a row. */
  function Select(row: Row, cols: seq<nat>): Row
    requires forall i :: 0 <= i < |cols| ==> cols[i] < |row|
  {
    seq(|cols|, i requires 0 <= i < |cols| => row[cols[i]])
  }

  function PairsFrom(a: Row, i: nat, right: seq<Row>, j: nat): seq<(nat, nat)>
    requires j <= |right|
    decreases |right| - j
  {
    if j == |right| then [] else (if a == right[j] then [(i, j)] else []) + PairsFrom(a, i, right, j + 1)
  }

  /** All pairs of rows with equal keys. */
  function Pairs(left: seq<Row>, i: nat, right: seq<Row>): seq<(nat, nat)>
    requires i <= |left|
    decreases |left| - i
  {
    if i == |left| then [] else PairsFrom(left[i], i, right, 0) + Pairs(left, i + 1, right)
  }

  /** `cudf::inner_join` with nulls equal: every matching pair of row indices once, in no particular
      order. */
  method InnerJoin(left: seq<Row>, right: seq<Row>) returns (pairs: seq<(nat, nat)>)
    ensures multiset(pairs) == multiset(Pairs(left, 0, right))
  {
    pairs := Pairs(left, 0, right);
  }

  lemma {:induction false} PairsFromRange(a: Row, i: nat, right: seq<Row>, j: nat)
    requires j <= |right|
    ensures forall p :: p in PairsFrom(a, i, right, j) <==> p.0 == i && j <= p.1 < |right| && right[p.1] == a
    decreases |right| - j
  {
    if j < |right| {
      PairsFromRange(a, i, right, j + 1);
    }
  }

  /** The index pairs are exactly the positions of equal keys. */
  lemma {:induction false} PairsRange(left: seq<Row>, i: nat, right: seq<Row>)
    requires i <= |left|
    ensures forall p :: p in Pairs(left, i, right)
                  <==> i <= p.0 < |left| && p.1 < |right| && left[p.0] == right[p.1]
    decreases |left| - i
  {
    if i < |left| {
      PairsFromRange(left[i], i, right, 0);
      PairsRange(left, i + 1, right);
    }
  }

  /** `cudf::gather` of both sides, columns side by side. */
  function Gather(left: Table, right: Table, pairs: seq<(nat, nat)>): (rows: seq<Row>)
    requires forall p :: p in pairs ==> p.0 < |left.rows| && p.1 < |right.rows|
    ensures |rows| == |pairs|
    ensures forall k :: 0 <= k < |pairs| ==> rows[k] == left.rows[pairs[k].0] + right.rows[pairs[k].1]
  {
    seq(|pairs|, k requires 0 <= k < |pairs| => left.rows[pairs[k].0] + right.rows[pairs[k].1])
  }

  predicate ValidIndexes(cols: seq<nat>, t: Table) {
    forall i :: 0 <= i < |cols| ==> cols[i] < t.width
  }

  /** `table_view::select`. */
  function SelectAll(t: Table, cols: seq<nat>): (rows: seq<Row>)
    requires Rectangular(t) && ValidIndexes(cols, t)
    ensures |rows| == |t.rows|
    ensures forall i :: 0 <= i < |rows| ==> rows[i] == Select(t.rows[i], cols)
  {
    seq(|t.rows|, i requires 0 <= i < |t.rows| => Select(t.rows[i], cols))
  }

  method JoinAndGather(left: Table, right: Table, leftOn: seq<nat>, rightOn: seq<nat>)
    returns (out: Table, ghost pairs: seq<(nat, nat)>)
    requires Rectangular(left) && Rectangular(right)
    requires ValidIndexes(leftOn, left) && ValidIndexes(rightOn, right)
    ensures Rectangular(out) && out.width == left.width + right.width
    ensures multiset(pairs) == multiset(Pairs(SelectAll(left, leftOn), 0, SelectAll(right, rightOn)))
    ensures forall p :: p in pairs ==> p.0 < |left.rows| && p.1 < |right.rows|
    ensures out.rows == Gather(left, right, pairs)
  {
    var leftSelected, rightSelected := SelectAll(left, leftOn), SelectAll(right, rightOn);
    var indices := InnerJoin(leftSelected, rightSelected);
    PairsRange(leftSelected, 0, rightSelected);
    forall p | p in indices ensures p.0 < |left.rows| && p.1 < |right.rows| {
      assert p in multiset(Pairs(leftSelected, 0, rightSelected));
    }
    out := Table(left.width + right.width, Gather(left, right, indices));
    pairs := indices;
  }

  // ----- table_with_names -----

  /** Positions of the named columns. */
  predicate Resolved(cols: seq<nat>, names: seq<ColName>, wanted: seq<ColName>) {
    |cols| == |wanted| && forall i :: 0 <= i < |wanted| ==> cols[i] == Find(names, wanted[i]) < |names|
  }

  /** A table with a list of column names beside it. */
  class TableWithNames {
    var tbl: Table
    var colNames: seq<ColName>

    constructor (tbl: Table, colNames: seq<ColName>)
      ensures this.tbl == tbl && this.colNames == colNames
    {
      this.tbl := tbl;
      this.colNames := colNames;
    }

    /** There is one name per column. */
    ghost predicate Valid()
      reads this
    {
      Rectangular(tbl) && tbl.width == |colNames|
    }

    /** The rows, by name. */
    ghost function Envs(): (envs: seq<Env>)
      requires Valid()
      reads this
      ensures AllKeyed(envs, Elements(colNames))
    {
      RowsOf(colNames, tbl.rows)
    }

    function ColumnId(name: ColName): (r: Result<nat>)
      reads this
      ensures r.Ok? <==> name in colNames
      ensures r.Ok? ==> r.value < |colNames| && colNames[r.value] == name && name !in colNames[..r.value]
      ensures r.Err? ==> r.error == ColumnNotFound(name)
    {
      var i := Find(colNames, name);
      if i == |colNames| then Err(ColumnNotFound(name)) else Ok(i)
    }

    method Column(name: ColName) returns (r: Result<seq<Value>>)
      requires Valid()
      ensures r.Ok? <==> name in colNames
      ensures r.Ok? ==> r.value == Map(Getter(name), Envs())
    {
      var id :- ColumnId(name);
      var rows := tbl.rows;
      var width := tbl.width;
      assert id == Find(colNames, name);
      forall i | 0 <= i < |rows| ensures rows[i][id] == Get(Envs()[i], name) {
        GetAt(colNames, rows[i], name);
      }
      r := Ok(seq(|rows|, i requires 0 <= i < |rows| && |rows[i]| == width && id < width => rows[i][id]));
      assert r.value == Map(Getter(name), Envs());
    }

    /** Adds a column on the right. */
    method Append(col: seq<Value>, name: ColName)
      requires Valid() && |col| == |tbl.rows|
      modifies this
      ensures Valid() && colNames == old(colNames) + [name]
      ensures |tbl.rows| == |old(tbl.rows)|
      ensures forall i :: 0 <= i < |col| ==> tbl.rows[i] == old(tbl.rows)[i] + [col[i]]
    {
      var rows := tbl.rows;
      tbl := Table(tbl.width + 1, seq(|rows|, i requires 0 <= i < |rows| && |rows| == |col| => rows[i] + [col[i]]));
      colNames := colNames + [name];
    }

    /** Resolves the listed names, or fails on the first that is missing. */
    method Indexes(names: seq<ColName>) returns (r: Result<seq<nat>>)
      ensures r.Ok? <==> Elements(names) <= Elements(colNames)
      ensures r.Ok? ==> Resolved(r.value, colNames, names)
    {
      var indices: seq<nat> := [];
      for k := 0 to |names|
        invariant |indices| == k
        invariant forall i :: 0 <= i < k ==> indices[i] == Find(colNames, names[i]) < |colNames|
        invariant forall i :: 0 <= i < k ==> names[i] in colNames
      {
        assert names[k] in Elements(names);
        var id := ColumnId(names[k]);
        if id.Err? {
          assert names[k] !in Elements(colNames);
          return Err(id.error);
        }
        indices := indices + [id.value];
      }
      return Ok(indices);
    }
  }

  // ----- joins -----

  function Zip(a: seq<ColName>, b: seq<ColName>): seq<(ColName, ColName)>
    requires |a| == |b|
  {
    seq(|a|, i requires 0 <= i < |a| => (a[i], b[i]))
  }

  lemma SameKeys(n1: seq<ColName>, r1: Row, c1: seq<nat>, on1: seq<ColName>,
                 n2: seq<ColName>, r2: Row, c2: seq<nat>, on2: seq<ColName>)
    requires |r1| == |n1| && |r2| == |n2| && Elements(n1) !! Elements(n2) && |on1| == |on2|
    requires Resolved(c1, n1, on1) && Resolved(c2, n2, on2)
    ensures Select(r1, c1) == Select(r2, c2) <==> Matches(Zip(on1, on2), EnvOf(n1, r1) + EnvOf(n2, r2))
  {
    var e, on := EnvOf(n1, r1) + EnvOf(n2, r2), Zip(on1, on2);
    forall i | 0 <= i < |on1| ensures Get(e, on1[i]) == Select(r1, c1)[i] && Get(e, on2[i]) == Select(r2, c2)[i] {
      assert on1[i] in Elements(n1) && on2[i] in Elements(n2);
    }
    if Select(r1, c1) == Select(r2, c2) {
      assert Matches(on, e);
    }
    if Matches(on, e) {
      forall i | 0 <= i < |on| ensures Select(r1, c1)[i] == Select(r2, c2)[i] {
        assert Get(e, on[i].0) == Get(e, on[i].1);
      }
    }
  }

  function PairEnv(left: seq<Env>, right: seq<Env>): ((nat, nat)) -> Env {
    (p: (nat, nat)) => if p.0 < |left| && p.1 < |right| then left[p.0] + right[p.1] else map[]
  }

  /** Comparing key rows by position is matching the named keys. */
  ghost predicate KeysAgree(lk: seq<Row>, rk: seq<Row>, left: seq<Env>, right: seq<Env>, on: seq<(ColName, ColName)>) {
    && |lk| == |left| && |rk| == |right|
    && forall i, j :: 0 <= i < |left| && 0 <= j < |right| ==> (lk[i] == rk[j] <==> Matches(on, left[i] + right[j]))
  }

  lemma {:induction false} PairsFromJoin(lk: seq<Row>, rk: seq<Row>, left: seq<Env>, right: seq<Env>,
                                         on: seq<(ColName, ColName)>, i: nat, j: nat)
    requires KeysAgree(lk, rk, left, right, on) && i < |left| && j <= |right|
    ensures Map(PairEnv(left, right), PairsFrom(lk[i], i, rk, j)) == JoinOne(left[i], right[j..], on)
    decreases |right| - j
  {
    var f := PairEnv(left, right);
    if j < |right| {
      PairsFromJoin(lk, rk, left, right, on, i, j + 1);
      assert right[j..][1..] == right[j + 1..];
      var rest := PairsFrom(lk[i], i, rk, j + 1);
      if lk[i] == rk[j] {
        assert Map(f, [(i, j)] + rest) == [left[i] + right[j]] + Map(f, rest);
      } else {
        assert PairsFrom(lk[i], i, rk, j) == rest;
      }
    }
  }

  lemma {:induction false} PairsJoin(lk: seq<Row>, rk: seq<Row>, left: seq<Env>, right: seq<Env>,
                                     on: seq<(ColName, ColName)>, i: nat)
    requires KeysAgree(lk, rk, left, right, on) && i <= |left|
    ensures Map(PairEnv(left, right), Pairs(lk, i, rk)) == JoinRows(left[i..], right, on)
    decreases |left| - i
  {
    if i < |left| {
      PairsJoin(lk, rk, left, right, on, i + 1);
      PairsFromJoin(lk, rk, left, right, on, i, 0);
      assert left[i..][1..] == left[i + 1..];
      assert right[0..] == right;
      MapConcat(PairEnv(left, right), PairsFrom(lk[i], i, rk, 0), Pairs(lk, i + 1, rk));
    }
  }

  /** Joining index pairs and gathering both sides is the join of the named rows, in some order. */
  lemma GatherIsJoin(left: Table, n1: seq<ColName>, c1: seq<nat>, on1: seq<ColName>,
                     right: Table, n2: seq<ColName>, c2: seq<nat>, on2: seq<ColName>, pairs: seq<(nat, nat)>)
    requires Rectangular(left) && left.width == |n1| && Rectangular(right) && right.width == |n2|
    requires Elements(n1) !! Elements(n2) && |on1| == |on2|
    requires Resolved(c1, n1, on1) && Resolved(c2, n2, on2)
    requires multiset(pairs) == multiset(Pairs(SelectAll(left, c1), 0, SelectAll(right, c2)))
    requires forall p :: p in pairs ==> p.0 < |left.rows| && p.1 < |right.rows|
    ensures multiset(RowsOf(n1 + n2, Gather(left, right, pairs)))
         == multiset(JoinRows(RowsOf(n1, left.rows), RowsOf(n2, right.rows), Zip(on1, on2)))
  {
    var l, r, on := RowsOf(n1, left.rows), RowsOf(n2, right.rows), Zip(on1, on2);
    var lk, rk := SelectAll(left, c1), SelectAll(right, c2);
    forall i, j | 0 <= i < |l| && 0 <= j < |r| ensures lk[i] == rk[j] <==> Matches(on, l[i] + r[j]) {
      SameKeys(n1, left.rows[i], c1, on1, n2, right.rows[j], c2, on2);
    }
    PairsJoin(lk, rk, l, r, on, 0);
    assert l[0..] == l;
    MapPermutes(PairEnv(l, r), pairs, Pairs(lk, 0, rk));
    var got := RowsOf(n1 + n2, Gather(left, right, pairs));
    forall k | 0 <= k < |pairs| ensures got[k] == PairEnv(l, r)(pairs[k]) {
      assert pairs[k] in pairs;
      EnvConcat(n1, left.rows[pairs[k].0], n2, right.rows[pairs[k].1]);
    }
    assert got == Map(PairEnv(l, r), pairs);
  }

  /** Fails exactly when a key is missing, the key lists differ in length or there is no key, which
      `cudf::inner_join` refuses; otherwise the columns of both tables stand side by side under their
      names, and the rows are those of the join. */
  method ApplyInnerJoin(left: TableWithNames, right: TableWithNames, leftOn: seq<ColName>, rightOn: seq<ColName>)
    returns (r: Result<TableWithNames>)
    requires left.Valid() && right.Valid()
    ensures r.Ok? <==> Elements(leftOn) <= Elements(left.colNames) && Elements(rightOn) <= Elements(right.colNames)
                       && |leftOn| == |rightOn| > 0
    ensures r.Ok? ==> fresh(r.value) && r.value.Valid() && r.value.colNames == left.colNames + right.colNames
    ensures r.Ok? && Elements(left.colNames) !! Elements(right.colNames) ==>
              multiset(r.value.Envs()) == multiset(JoinRows(left.Envs(), right.Envs(), Zip(leftOn, rightOn)))
  {
    var leftIndices :- left.Indexes(leftOn);
    var rightIndices :- right.Indexes(rightOn);
    if |leftIndices| != |rightIndices| {
      return Err(KeyCountMismatch);
    }
    if |leftIndices| == 0 {
      return Err(NoKeys);
    }
    var table, pairs := JoinAndGather(left.tbl, right.tbl, leftIndices, rightIndices);
    var merged := left.colNames + right.colNames;
    var joined := new TableWithNames(table, merged);
    if Elements(left.colNames) !! Elements(right.colNames) {
      GatherIsJoin(left.tbl, left.colNames, leftIndices, leftOn, right.tbl, right.colNames, rightIndices, rightOn,
          pairs);
    }
    return Ok(joined);
  }

  // ----- scans, filters and masks -----

  function SelectEnv(names: seq<ColName>): Env -> Row {
    e => seq(|names|, i requires 0 <= i < |names| => Get(e, names[i]))
  }

  /** Stable: rows whose mask element is valid and true, in their order. */
  function RetentionMask(rows: seq<Row>, mask: seq<Value>): (kept: seq<Row>)
    requires |rows| == |mask|
    ensures forall r :: r in kept ==> r in rows
  {
    if rows == [] then [] else (if mask[0] == Bool(true) then [rows[0]] else []) + RetentionMask(rows[1..], mask[1..])
  }

  function ComputeColumn(rows: seq<Row>, predicate_: Ast, width: nat): (mask: seq<Value>)
    requires InRange(predicate_, width) && forall i :: 0 <= i < |rows| ==> |rows[i]| == width
    ensures |mask| == |rows|
    ensures forall i :: 0 <= i < |rows| ==> mask[i] == Evaluate(predicate_, rows[i])
  {
    seq(|rows|, i requires 0 <= i < |rows| => Evaluate(predicate_, rows[i]))
  }

  lemma {:induction false} MaskIsFilter(names: seq<ColName>, rows: seq<Row>, mask: seq<Value>, p: Env -> bool)
    requires forall i :: 0 <= i < |rows| ==> |rows[i]| == |names|
    requires |mask| == |rows|
    requires forall i :: 0 <= i < |rows| ==> (mask[i] == Bool(true) <==> p(EnvOf(names, rows[i])))
    ensures forall i :: 0 <= i < |RetentionMask(rows, mask)| ==> |RetentionMask(rows, mask)[i]| == |names|
    ensures RowsOf(names, RetentionMask(rows, mask)) == Filter(p, RowsOf(names, rows))
  {
    if rows != [] {
      MaskIsFilter(names, rows[1..], mask[1..], p);
    }
  }

  /** Keeps the rows on which the mask is true, by whatever condition `p` the mask was computed. */
  method ApplyMask(table: TableWithNames, mask: seq<Value>, ghost p: Env -> bool) returns (out: TableWithNames)
    requires table.Valid() && |mask| == |table.tbl.rows|
    requires forall i :: 0 <= i < |mask| ==> (mask[i] == Bool(true) <==> p(table.Envs()[i]))
    ensures fresh(out) && out.Valid() && out.colNames == table.colNames
    ensures out.Envs() == Filter(p, table.Envs())
  {
    MaskIsFilter(table.colNames, table.tbl.rows, mask, p);
    out := new TableWithNames(Table(table.tbl.width, RetentionMask(table.tbl.rows, mask)), table.colNames);
  }

  function Passes(a: Ast, width: nat): Row -> bool
    requires InRange(a, width)
  {
    row => |row| == width && Evaluate(a, row) == Bool(true)
  }

  lemma {:induction false} RetentionIsFilter(rows: seq<Row>, mask: seq<Value>, p: Row -> bool)
    requires |mask| == |rows| && forall i :: 0 <= i < |rows| ==> (mask[i] == Bool(true) <==> p(rows[i]))
    ensures RetentionMask(rows, mask) == Filter(p, rows)
  {
    if rows != [] {
      RetentionIsFilter(rows[1..], mask[1..], p);
    }
  }

  /** Keeps the rows on which the predicate is true; when no two columns share a name, that is the
      predicate over the names. */
  method ApplyFilter(table: TableWithNames, predicate_: Ast) returns (out: TableWithNames)
    requires table.Valid() && InRange(predicate_, table.tbl.width)
    ensures fresh(out) && out.Valid() && out.colNames == table.colNames
    ensures out.tbl.rows == Filter(Passes(predicate_, table.tbl.width), table.tbl.rows)
    ensures Distinct(table.colNames) ==>
              out.Envs() == Filter(Selector(Named(predicate_, table.colNames)), table.Envs())
  {
    var rows := table.tbl.rows;
    var mask := ComputeColumn(rows, predicate_, table.tbl.width);
    RetentionIsFilter(rows, mask, Passes(predicate_, table.tbl.width));
    var kept := RetentionMask(rows, mask);
    forall i | 0 <= i < |kept| ensures |kept[i]| == table.tbl.width {
      assert kept[i] in kept;
    }
    out := new TableWithNames(Table(table.tbl.width, kept), table.colNames);
    if Distinct(table.colNames) {
      forall i | 0 <= i < |mask| ensures mask[i] == Eval(Named(predicate_, table.colNames), table.Envs()[i]) {
        EvaluateByName(predicate_, table.colNames, rows[i]);
      }
      MaskIsFilter(table.colNames, rows, mask, Selector(Named(predicate_, table.colNames)));
    }
  }

  lemma SelectedEnv(names: seq<ColName>, e: Env)
    requires Elements(names) <= e.Keys
    ensures EnvOf(names, SelectEnv(names)(e)) == Restrict(e, Elements(names))
  {
    var row := SelectEnv(names)(e);
    forall c | c in names ensures EnvOf(names, row)[c] == e[c] {
      assert c in Elements(names);
    }
  }

  lemma {:induction false} FilterAfterMap(f: Env -> Env, p: Env -> bool, q: Env -> bool, rows: seq<Env>)
    requires forall e :: e in rows ==> p(f(e)) == q(e)
    ensures Filter(p, Map(f, rows)) == Map(f, Filter(q, rows))
  {
    if rows != [] {
      assert Map(f, rows)[1..] == Map(f, rows[1..]);
      assert rows[0] in rows;
      FilterAfterMap(f, p, q, rows[1..]);
    }
  }

  /** The columns a read delivers: all of the file's when none is listed; otherwise the listed ones that
      the file has, each once. */
  function ColumnsRead(fileColumns: seq<ColName>, columns: seq<ColName>): (names: seq<ColName>)
    requires Distinct(fileColumns)
    ensures Distinct(names)
    ensures Elements(names)
         == if columns == [] then Elements(fileColumns) else Elements(columns) * Elements(fileColumns)
  {
    if columns == [] then fileColumns else FirstListed(fileColumns, columns)
  }

  function FirstListed(fileColumns: seq<ColName>, columns: seq<ColName>): (names: seq<ColName>)
    ensures Distinct(names) && Elements(names) == Elements(columns) * Elements(fileColumns)
  {
    if columns == [] then []
    else
      var init, last := FirstListed(fileColumns, columns[..|columns| - 1]), columns[|columns| - 1];
      assert columns == columns[..|columns| - 1] + [last];
      assert Elements(columns) == Elements(columns[..|columns| - 1]) + {last};
      assert last !in Elements(init) ==> last !in init;
      assert Elements(init + [last]) == Elements(init) + {last};
      if last in fileColumns && last !in init then init + [last] else init
  }

  lemma {:induction false} ReadsAll(fileColumns: seq<ColName>, columns: seq<ColName>)
    requires Distinct(columns) && Elements(columns) <= Elements(fileColumns)
    ensures FirstListed(fileColumns, columns) == columns
  {
    if columns != [] {
      var init, last := columns[..|columns| - 1], columns[|columns| - 1];
      assert columns == init + [last];
      assert forall i :: 0 <= i < |init| ==> init[i] == columns[i];
      assert last in Elements(columns) && last in fileColumns;
      ReadsAll(fileColumns, init);
    }
  }

  /** Reads columns of a stored table and keeps the rows that satisfy the predicate, whose references count
      the columns read. Names that the file lacks are ignored; a table without columns has no rows. */
  method ReadParquet(source: seq<Env>, fileColumns: seq<ColName>, columns: seq<ColName>, predicate_: Ast)
    returns (out: TableWithNames)
    requires Distinct(fileColumns) && AllKeyed(source, Elements(fileColumns))
    requires InRange(predicate_, |ColumnsRead(fileColumns, columns)|)
    ensures fresh(out) && out.Valid()
    ensures out.colNames == ColumnsRead(fileColumns, columns)
    ensures out.Envs() == if out.colNames == [] then []
                          else Map(Projector(Elements(out.colNames)),
                                   Filter(Selector(Named(predicate_, out.colNames)), source))
  {
    var names := ColumnsRead(fileColumns, columns);
    if names == [] {
      out := new TableWithNames(Table(0, []), names);
      return;
    }
    var whole := new TableWithNames(Table(|names|, Map(SelectEnv(names), source)), names);
    forall i | 0 <= i < |source| ensures whole.Envs()[i] == Restrict(source[i], Elements(names)) {
      assert source[i] in source;
      SelectedEnv(names, source[i]);
    }
    assert whole.Envs() == Map(Projector(Elements(names)), source);
    out := ApplyFilter(whole, predicate_);
    FilterProjected(source, names, predicate_);
  }

  /** Filtering after the projection is filtering before it. */
  lemma FilterProjected(source: seq<Env>, names: seq<ColName>, predicate_: Ast)
    requires Distinct(names) && InRange(predicate_, |names|)
    ensures Filter(Selector(Named(predicate_, names)), Map(Projector(Elements(names)), source))
         == Map(Projector(Elements(names)), Filter(Selector(Named(predicate_, names)), source))
  {
    var x := Named(predicate_, names);
    forall e | e in source ensures Selector(x)(Projector(Elements(names))(e)) == Selector(x)(e) {
      EvaluateByName(predicate_, names, SelectEnv(names)(e));
      EvalLocal(x, e, Elements(names));
    }
    FilterAfterMap(Projector(Elements(names)), Selector(x), Selector(x), source);
  }
}
