/** `cudf::ast::tree` as an arena of nodes that refer back to earlier nodes, and what its expressions
    denote. */
module ExpressionTrees {
  import opened Values

  type Ref = nat

  datatype Node =
    | ColumnReference(index: nat)
    | Literal(v: Value)
    | Cast(input: Ref)
    | Operation(op: Operator, left: Ref, right: Ref)

  predicate RefersBack(n: Node, size: nat) {
    match n
    case ColumnReference(_) | Literal(_) => true
    case Cast(a) => a < size
    case Operation(_, a, b) => a < size && b < size
  }

  ghost predicate WellFormed(nodes: seq<Node>) {
    forall i :: 0 <= i < |nodes| ==> RefersBack(nodes[i], i)
  }

  /** CAST_TO_FLOAT64. */
  function ToFloat64(v: Value): Value {
    if v.Num? then v else Null
  }

  /** The value of an expression on one row. */
  function Denote(nodes: seq<Node>, i: Ref, row: seq<Value>): Value
    requires WellFormed(nodes) && i < |nodes|
    decreases i
  {
    match nodes[i]
    case ColumnReference(c) => if c < |row| then row[c] else Null
    case Literal(v) => v
    case Cast(a) => ToFloat64(Denote(nodes, a, row))
    case Operation(op, a, b) => Apply(op, Denote(nodes, a, row), Denote(nodes, b, row))
  }

  /** Later pushes do not change what an expression denotes. */
  lemma {:induction false} DenoteStable(nodes: seq<Node>, more: seq<Node>, i: Ref, row: seq<Value>)
    requires WellFormed(nodes) && WellFormed(nodes + more) && i < |nodes|
    ensures Denote(nodes + more, i, row) == Denote(nodes, i, row)
    decreases i
  {
    assert (nodes + more)[i] == nodes[i];
    match nodes[i]
    case ColumnReference(_) =>
    case Literal(_) =>
    case Cast(a) => DenoteStable(nodes, more, a, row);
    case Operation(_, a, b) => DenoteStable(nodes, more, a, row); DenoteStable(nodes, more, b, row);
  }

  /** A tree grows by pushes; `tree.back()` is the last expression pushed. */
  class Tree {
    var nodes: seq<Node>

    constructor ()
      ensures nodes == []
    {
      nodes := [];
    }

    ghost predicate Valid()
      reads this
    {
      WellFormed(nodes)
    }

    method Push(n: Node) returns (r: Ref)
      requires Valid() && RefersBack(n, |nodes|)
      modifies this
      ensures Valid() && nodes == old(nodes) + [n] && r == |old(nodes)|
    {
      r := |nodes|;
      nodes := nodes + [n];
    }

    function Back(): (r: Ref)
      requires nodes != []
      reads this
      ensures r < |nodes|
    {
      |nodes| - 1
    }
  }

  /** A pushed node denotes its operation on what the earlier nodes denote. */
  lemma PushedValue(nodes: seq<Node>, n: Node, row: seq<Value>)
    requires WellFormed(nodes) && RefersBack(n, |nodes|)
    ensures WellFormed(nodes + [n])
    ensures Denote(nodes + [n], |nodes|, row) == NodeValue(nodes, n, row)
  {
    assert (nodes + [n])[|nodes|] == n;
    match n
    case ColumnReference(_) =>
    case Literal(_) =>
    case Cast(a) => DenoteStable(nodes, [n], a, row);
    case Operation(_, a, b) => DenoteStable(nodes, [n], a, row); DenoteStable(nodes, [n], b, row);
  }

  /** What a node denotes on top of the nodes it refers to. */
  ghost function NodeValue(nodes: seq<Node>, n: Node, row: seq<Value>): Value
    requires WellFormed(nodes) && RefersBack(n, |nodes|)
  {
    match n
    case ColumnReference(c) => if c < |row| then row[c] else Null
    case Literal(v) => v
    case Cast(a) => ToFloat64(Denote(nodes, a, row))
    case Operation(op, a, b) => Apply(op, Denote(nodes, a, row), Denote(nodes, b, row))
  }

  // ----- columns -----

  type Column = seq<Value>

  ghost predicate SameLength(cols: seq<Column>, n: nat) {
    forall c :: 0 <= c < |cols| ==> |cols[c]| == n
  }

  /** Row `r` of a table of columns. */
  function RowAt(cols: seq<Column>, r: nat, n: nat): (row: seq<Value>)
    requires SameLength(cols, n) && r < n
    ensures |row| == |cols|
    ensures forall c :: 0 <= c < |cols| ==> row[c] == cols[c][r]
  {
    seq(|cols|, c requires 0 <= c < |cols| => cols[c][r])
  }

  /** `cudf::compute_column`. */
  function ComputeColumn(nodes: seq<Node>, i: Ref, cols: seq<Column>, n: nat): (out: Column)
    requires WellFormed(nodes) && i < |nodes| && SameLength(cols, n)
    ensures |out| == n
    ensures forall r :: 0 <= r < n ==> out[r] == Denote(nodes, i, RowAt(cols, r, n))
  {
    seq(n, r requires 0 <= r < n => Denote(nodes, i, RowAt(cols, r, n)))
  }

  // ----- what a finished tree denotes -----

  /** The references to the columns that every benchmark pushes first. */
  function References(n: nat): (nodes: seq<Node>)
    ensures |nodes| == n && WellFormed(nodes)
    ensures forall i :: 0 <= i < n ==> nodes[i] == ColumnReference(i)
  {
    seq(n, i requires 0 <= i < n => ColumnReference(i))
  }

  method PushReferences(n: nat) returns (tree: Tree)
    ensures fresh(tree) && tree.nodes == References(n)
  {
    tree := new Tree();
    for i := 0 to n
      invariant fresh(tree) && tree.nodes == References(i)
    {
      var r := tree.Push(ColumnReference(i));
    }
  }

  /** The tree starts with `n` column references, and its last expression denotes `f`. */
  ghost predicate Denotes(nodes: seq<Node>, n: nat, f: seq<Value> -> Value) {
    && WellFormed(nodes) && nodes != [] && References(n) <= nodes
    && forall row: seq<Value> {:trigger Denote(nodes, |nodes| - 1, row)} ::
         |row| == n ==> Denote(nodes, |nodes| - 1, row) == f(row)
  }

  /** A tree and a loop of column operations that both follow `f` compute the same column. */
  lemma TreeIsLoop(nodes: seq<Node>, cols: seq<Column>, n: nat, f: seq<Value> -> Value, loop: Column)
    requires SameLength(cols, n) && Denotes(nodes, |cols|, f)
    requires |loop| == n && forall r :: 0 <= r < n ==> loop[r] == f(RowAt(cols, r, n))
    ensures ComputeColumn(nodes, |nodes| - 1, cols, n) == loop
  {
  }

  // ----- polynomials -----

  function Power(x: real, n: nat): real {
    if n == 0 then 1.0 else x * Power(x, n - 1)
  }

  /** c[0] * x^(n-1) + ... + c[n-1]. */
  function PowerSum(c: seq<real>, x: real): real {
    if c == [] then 0.0 else c[0] * Power(x, |c| - 1) + PowerSum(c[1..], x)
  }

  /** The polynomial on a column element: null where the element is null. */
  function Polynomial(c: seq<real>, x: Value): Value {
    if x.Num? then Num(PowerSum(c, x.num)) else Null
  }

  /** One Horner step. */
  lemma {:induction false} HornerStep(c: seq<real>, d: real, x: real)
    ensures PowerSum(c + [d], x) == PowerSum(c, x) * x + d
  {
    if c == [] {
      assert c + [d] == [d];
      assert [d][1..] == [];
    } else {
      assert (c + [d])[1..] == c[1..] + [d];
      HornerStep(c[1..], d, x);
    }
  }

  lemma HornerValue(c: seq<real>, d: real, x: Value, before: Value)
    requires c != []
    requires before == if |c| == 1 then Num(c[0]) else Polynomial(c, x)
    ensures Apply(ADD, Apply(MUL, before, x), Num(d)) == Polynomial(c + [d], x)
  {
    if x.Num? {
      HornerStep(c, d, x.num);
      if |c| == 1 {
        assert c[1..] == [];
        assert PowerSum(c, x.num) == c[0] * Power(x.num, 0) + PowerSum(c[1..], x.num);
      }
    }
  }

  /** The nodes after one round of the loop of BM_ast_polynomials. */
  function HornerRound(nodes: seq<Node>, column: Ref, d: real): seq<Node>
    requires nodes != []
  {
    nodes + [Operation(MUL, |nodes| - 1, column)] + [Literal(Num(d))] + [Operation(ADD, |nodes|, |nodes| + 1)]
  }

  lemma HornerPushes(nodes: seq<Node>, column: Ref, c: seq<real>, d: real, row: seq<Value>, x: Value)
    requires WellFormed(nodes) && column < |nodes| && c != []
    requires Denote(nodes, column, row) == x
    requires Denote(nodes, |nodes| - 1, row) == if |c| == 1 then Num(c[0]) else Polynomial(c, x)
    ensures WellFormed(HornerRound(nodes, column, d))
    ensures Denote(HornerRound(nodes, column, d), column, row) == x
    ensures Denote(HornerRound(nodes, column, d), |nodes| + 2, row) == Polynomial(c + [d], x)
  {
    var n1 := nodes + [Operation(MUL, |nodes| - 1, column)];
    var n2 := n1 + [Literal(Num(d))];
    PushedValue(nodes, Operation(MUL, |nodes| - 1, column), row);
    PushedValue(n1, Literal(Num(d)), row);
    PushedValue(n2, Operation(ADD, |nodes|, |nodes| + 1), row);
    DenoteStable(n1, [Literal(Num(d))], |nodes|, row);
    DenoteStable(nodes, [Operation(MUL, |nodes| - 1, column)], column, row);
    DenoteStable(n1, [Literal(Num(d))], column, row);
    DenoteStable(n2, [Operation(ADD, |nodes|, |nodes| + 1)], column, row);
    HornerValue(c, d, x, Denote(nodes, |nodes| - 1, row));
  }

  /** The loop invariant of BM_ast_polynomials. */
  ghost predicate IsHorner(nodes: seq<Node>, column: Ref, c: seq<real>) {
    && WellFormed(nodes) && column < |nodes| && c != []
    && (forall row: seq<Value> {:trigger Denote(nodes, column, row)} :: |row| > 0 ==>
          Denote(nodes, column, row) == row[0])
    && (forall row: seq<Value> {:trigger Denote(nodes, |nodes| - 1, row)} :: |row| > 0 ==>
          Denote(nodes, |nodes| - 1, row) == if |c| == 1 then Num(c[0]) else Polynomial(c, row[0]))
  }

  lemma HornerRoundKeeps(nodes: seq<Node>, column: Ref, c: seq<real>, d: real)
    requires IsHorner(nodes, column, c)
    ensures IsHorner(HornerRound(nodes, column, d), column, c + [d])
  {
    HornerPushes(nodes, column, c, d, [Null], Null);
    forall row: seq<Value> | |row| > 0
      ensures Denote(HornerRound(nodes, column, d), column, row) == row[0]
      ensures Denote(HornerRound(nodes, column, d), |nodes| + 2, row) == Polynomial(c + [d], row[0])
    {
      HornerPushes(nodes, column, c, d, row, row[0]);
    }
  }

  function PolynomialOfOnly(c: seq<real>): seq<Value> -> Value {
    (row: seq<Value>) => if |row| == 1 then Polynomial(c, row[0]) else Null
  }

  /** BM_ast_polynomials: the pushes of the Horner tree. The check on `order` is the source's. */
  method BuildPolynomial(constants: seq<real>) returns (tree: Tree)
    requires |constants| >= 2
    ensures fresh(tree) && tree.Valid()
    ensures Denotes(tree.nodes, 1, PolynomialOfOnly(constants))
  {
    tree := new Tree();
    var columnRef := tree.Push(ColumnReference(0));
    var first := tree.Push(Literal(Num(constants[0])));
    for i := 0 to |constants| - 1
      invariant fresh(tree) && IsHorner(tree.nodes, columnRef, constants[..i + 1])
      invariant tree.nodes[0] == ColumnReference(0)
    {
      ghost var before := tree.nodes;
      var product := tree.Push(Operation(MUL, tree.Back(), columnRef));
      var constant := tree.Push(Literal(Num(constants[i + 1])));
      var sum := tree.Push(Operation(ADD, product, constant));
      HornerRoundKeeps(before, columnRef, constants[..i + 1], constants[i + 1]);
      assert constants[..i + 2] == constants[..i + 1] + [constants[i + 1]];
    }
    assert constants[..|constants|] == constants;
  }

  /** BM_binaryop_polynomials: the same polynomial, column by column. */
  method PolynomialColumns(x: Column, constants: seq<real>) returns (result: Column)
    requires |constants| >= 2
    ensures |result| == |x| && forall r :: 0 <= r < |x| ==> result[r] == Polynomial(constants, x[r])
  {
    result := seq(|x|, _ => Num(constants[0]));
    var intermediates: seq<Column> := [];
    for i := 0 to |constants| - 1
      invariant |result| == |x|
      invariant forall r :: 0 <= r < |x| ==>
                  result[r] == if i == 0 then Num(constants[0]) else Polynomial(constants[..i + 1], x[r])
    {
      var product := BinaryOperation(MUL, result, x);
      var sum := ColumnScalar(ADD, product, Num(constants[i + 1]));
      forall r | 0 <= r < |x| ensures sum[r] == Polynomial(constants[..i + 2], x[r]) {
        HornerValue(constants[..i + 1], constants[i + 1], x[r], result[r]);
        assert constants[..i + 2] == constants[..i + 1] + [constants[i + 1]];
      }
      intermediates := intermediates + [product, result];
      result := sum;
    }
    assert constants[..|constants|] == constants;
  }

  // ----- chains of additions -----

  function Amounts(row: seq<Value>): real {
    if row == [] then 0.0 else Amounts(row[..|row| - 1]) + Amount(row[|row| - 1])
  }

  /** The sum of the elements; null if one of them is. */
  function SumOf(row: seq<Value>): Value {
    if forall i :: 0 <= i < |row| ==> row[i].Num? then Num(Amounts(row)) else Null
  }

  lemma SumOfMore(row: seq<Value>, v: Value)
    requires row != []
    ensures SumOf(row + [v]) == Apply(ADD, SumOf(row), v)
  {
    var all := row + [v];
    assert all[..|all| - 1] == row;
    assert (forall i :: 0 <= i < |all| ==> all[i].Num?) <==> (forall i :: 0 <= i < |row| ==> row[i].Num?) && v.Num? by {
      assert forall i :: 0 <= i < |row| ==> all[i] == row[i];
      assert all[|row|] == v;
    }
  }

  lemma SumOfTwo(a: Value, b: Value)
    ensures SumOf([a, b]) == Apply(ADD, a, b)
  {
    assert [a] + [b] == [a, b];
    assert [a][..0] == [];
    assert Amounts([a]) == Amounts([a][..0]) + Amount(a);
    if !a.Num? {
      assert [a, b][0] == a;
    }
  }

  function SumOfFirst(k: nat): seq<Value> -> Value {
    (row: seq<Value>) => if k <= |row| then SumOf(row[..k]) else Null
  }

  lemma FirstAddition(n: nat)
    requires n >= 2
    ensures Denotes(References(n) + [Operation(ADD, 0, 1)], n, SumOfFirst(2))
  {
    var nodes := References(n) + [Operation(ADD, 0, 1)];
    forall row: seq<Value> | |row| == n ensures Denote(nodes, n, row) == SumOf(row[..2]) {
      assert nodes[n] == Operation(ADD, 0, 1);
      SumOfTwo(row[0], row[1]);
      assert row[..2] == [row[0], row[1]];
    }
  }

  lemma NextAddition(nodes: seq<Node>, n: nat, k: nat)
    requires Denotes(nodes, n, SumOfFirst(k)) && 2 <= k < n
    ensures Denotes(nodes + [Operation(ADD, |nodes| - 1, k)], n, SumOfFirst(k + 1))
  {
    var op := Operation(ADD, |nodes| - 1, k);
    PushedValue(nodes, op, []);
    forall row: seq<Value> | |row| == n ensures Denote(nodes + [op], |nodes|, row) == SumOf(row[..k + 1]) {
      PushedValue(nodes, op, row);
      assert row[..k + 1] == row[..k] + [row[k]];
      SumOfMore(row[..k], row[k]);
    }
  }

  /** The loop of BM_ast_transform over the remaining columns. */
  method AddRemaining(tree: Tree, n: nat)
    requires n >= 2 && Denotes(tree.nodes, n, SumOfFirst(2))
    modifies tree
    ensures Denotes(tree.nodes, n, SumOfFirst(n))
  {
    for col := 2 to n
      invariant Denotes(tree.nodes, n, SumOfFirst(col))
    {
      ghost var before := tree.nodes;
      NextAddition(before, n, col);
      var r := tree.Push(Operation(ADD, tree.Back(), col));
      assert tree.nodes == before + [Operation(ADD, |before| - 1, col)];
    }
  }

  /** BM_ast_transform without column reuse: the chain of additions over all columns. */
  method BuildAddChain(treeLevels: nat) returns (tree: Tree)
    requires treeLevels >= 1
    ensures fresh(tree) && tree.Valid()
    ensures Denotes(tree.nodes, treeLevels + 1, SumOf)
  {
    var numColumns := treeLevels + 1;
    tree := PushFirstAddition(numColumns);
    AddRemaining(tree, numColumns);
    AllAdded(tree.nodes, numColumns);
  }

  method PushFirstAddition(n: nat) returns (tree: Tree)
    requires n >= 2
    ensures fresh(tree) && Denotes(tree.nodes, n, SumOfFirst(2))
  {
    tree := PushReferences(n);
    FirstAddition(n);
    var r := tree.Push(Operation(ADD, 0, 1));
  }

  lemma AllAdded(nodes: seq<Node>, n: nat)
    requires Denotes(nodes, n, SumOfFirst(n))
    ensures Denotes(nodes, n, SumOf)
  {
    forall row: seq<Value> | |row| == n ensures Denote(nodes, |nodes| - 1, row) == SumOf(row) {
      assert row[..n] == row;
    }
  }

  /** BM_binaryop_transform without column reuse: the same sum, column by column. */
  method AddChainColumns(table: seq<Column>, n: nat) returns (result: Column)
    requires |table| >= 2 && SameLength(table, n)
    ensures |result| == n && forall r :: 0 <= r < n ==> result[r] == SumOf(RowAt(table, r, n))
  {
    result := BinaryOperation(ADD, table[0], table[1]);
    forall r | 0 <= r < n ensures result[r] == SumOf(RowAt(table, r, n)[..2]) {
      SumOfTwo(table[0][r], table[1][r]);
      assert RowAt(table, r, n)[..2] == [table[0][r], table[1][r]];
    }
    for col := 2 to |table|
      invariant |result| == n
      invariant forall r :: 0 <= r < n ==> result[r] == SumOf(RowAt(table, r, n)[..col])
    {
      var next := BinaryOperation(ADD, result, table[col]);
      forall r | 0 <= r < n ensures next[r] == SumOf(RowAt(table, r, n)[..col + 1]) {
        assert RowAt(table, r, n)[..col + 1] == RowAt(table, r, n)[..col] + [table[col][r]];
        SumOfMore(RowAt(table, r, n)[..col], table[col][r]);
      }
      result := next;
    }
    forall r | 0 <= r < n ensures result[r] == SumOf(RowAt(table, r, n)) {
      assert RowAt(table, r, n)[..|table|] == RowAt(table, r, n);
    }
  }

  /** `k` times a column element. */
  function Multiple(k: nat, v: Value): Value {
    if v.Num? then Num(k as real * v.num) else Null
  }

  function MultipleOfOnly(k: nat): seq<Value> -> Value {
    (row: seq<Value>) => if |row| == 1 then Multiple(k, row[0]) else Null
  }

  lemma NextReuse(nodes: seq<Node>, k: nat)
    requires WellFormed(nodes) && References(1) <= nodes
    requires if k == 1 then nodes == References(1) else Denotes(nodes, 1, MultipleOfOnly(k))
    ensures Denotes(nodes + [Operation(ADD, |nodes| - 1, 0)], 1, MultipleOfOnly(k + 1))
  {
    var op := Operation(ADD, |nodes| - 1, 0);
    PushedValue(nodes, op, []);
    forall row: seq<Value> | |row| == 1 ensures Denote(nodes + [op], |nodes|, row) == Multiple(k + 1, row[0]) {
      PushedValue(nodes, op, row);
    }
  }

  /** How often the column is added up: the first addition happens for any number of levels. */
  function Times(treeLevels: int): (k: nat)
    ensures k >= 2
  {
    if treeLevels <= 1 then 2 else treeLevels + 1
  }

  /** BM_ast_transform with column reuse: one column added up again and again. */
  method BuildReuseChain(treeLevels: int) returns (tree: Tree)
    ensures fresh(tree) && tree.Valid()
    ensures Denotes(tree.nodes, 1, MultipleOfOnly(Times(treeLevels)))
  {
    tree := PushReferences(1);
    NextReuse(tree.nodes, 1);
    var r := tree.Push(Operation(ADD, 0, 0));
    var i := 0;
    while i < treeLevels - 1
      invariant 0 <= i <= Times(treeLevels) - 2
      invariant fresh(tree) && Denotes(tree.nodes, 1, MultipleOfOnly(i + 2))
    {
      NextReuse(tree.nodes, i + 2);
      r := tree.Push(Operation(ADD, tree.Back(), 0));
      i := i + 1;
    }
  }

  /** BM_binaryop_transform with column reuse. */
  method ReuseChainColumns(x: Column, treeLevels: int) returns (result: Column)
    ensures |result| == |x| && forall r :: 0 <= r < |x| ==> result[r] == Multiple(Times(treeLevels), x[r])
  {
    result := BinaryOperation(ADD, x, x);
    var i := 0;
    while i < treeLevels - 1
      invariant 0 <= i <= Times(treeLevels) - 2
      invariant |result| == |x| && forall r :: 0 <= r < |x| ==> result[r] == Multiple(i + 2, x[r])
    {
      result := BinaryOperation(ADD, result, x);
      i := i + 1;
    }
  }

  // ----- conjunctions of comparisons -----

  /** Whether the first `k` pairs of elements are equal; null if one of the elements is. */
  function PairsEqual(row: seq<Value>, k: nat): Value
    requires 2 * k <= |row|
  {
    if exists i :: 0 <= i < 2 * k && row[i].Null? then Null
    else Bool(forall j :: 0 <= j < k ==> row[2 * j] == row[2 * j + 1])
  }

  lemma PairStep(row: seq<Value>, k: nat)
    requires 2 * k + 2 <= |row|
    ensures PairsEqual(row, k + 1)
         == Apply(LOGICAL_AND, PairsEqual(row, k), Apply(EQUAL, row[2 * k], row[2 * k + 1]))
    ensures PairsEqual(row, k + 1)
         == Apply(LOGICAL_AND, Apply(EQUAL, row[2 * k], row[2 * k + 1]), PairsEqual(row, k))
    ensures PairsEqual(row, 1) == Apply(EQUAL, row[0], row[1])
  {
    if exists i :: 0 <= i < 2 * k && row[i].Null? {
      var i :| 0 <= i < 2 * k && row[i].Null?;
      assert 0 <= i < 2 * (k + 1);
    }
    if row[0].Null? || row[1].Null? {
      assert exists i :: 0 <= i < 2 * 1 && row[i].Null?;
    } else {
      assert row[0] == row[2 * 0] && row[1] == row[2 * 0 + 1];
    }
  }

  function FirstPairsEqual(k: nat): seq<Value> -> Value {
    (row: seq<Value>) => if 2 * k <= |row| then PairsEqual(row, k) else Null
  }

  lemma FirstComparison(n: nat)
    requires n >= 2
    ensures Denotes(References(n) + [Operation(EQUAL, 0, 1)], n, FirstPairsEqual(1))
  {
    var nodes := References(n) + [Operation(EQUAL, 0, 1)];
    forall row: seq<Value> | |row| == n ensures Denote(nodes, n, row) == PairsEqual(row, 1) {
      assert nodes[n] == Operation(EQUAL, 0, 1);
      PairStep(row, 0);
    }
  }

  /** The nodes after one round of the loop of BM_string_compare_ast_transform. */
  function CompareRound(nodes: seq<Node>, k: nat): seq<Node>
    requires nodes != []
  {
    nodes + [Operation(EQUAL, 2 * k, 2 * k + 1)] + [Operation(LOGICAL_AND, |nodes| - 1, |nodes|)]
  }

  lemma NextComparison(nodes: seq<Node>, n: nat, k: nat)
    requires Denotes(nodes, n, FirstPairsEqual(k)) && 1 <= k && 2 * k + 2 <= n
    ensures Denotes(CompareRound(nodes, k), n, FirstPairsEqual(k + 1))
  {
    var compare, conjunction := Operation(EQUAL, 2 * k, 2 * k + 1), Operation(LOGICAL_AND, |nodes| - 1, |nodes|);
    var mid := nodes + [compare];
    PushedValue(nodes, compare, []);
    PushedValue(mid, conjunction, []);
    forall row: seq<Value> | |row| == n ensures Denote(mid + [conjunction], |mid|, row) == PairsEqual(row, k + 1) {
      PushedValue(nodes, compare, row);
      PushedValue(mid, conjunction, row);
      DenoteStable(nodes, [compare], |nodes| - 1, row);
      PairStep(row, k);
    }
  }

  /** The loop of BM_string_compare_ast_transform over the remaining pairs. */
  method CompareRemaining(tree: Tree, levels: nat)
    requires levels >= 1 && Denotes(tree.nodes, 2 * levels, FirstPairsEqual(1))
    modifies tree
    ensures Denotes(tree.nodes, 2 * levels, FirstPairsEqual(levels))
  {
    for idx := 1 to levels
      invariant Denotes(tree.nodes, 2 * levels, FirstPairsEqual(idx))
    {
      ghost var before := tree.nodes;
      NextComparison(before, 2 * levels, idx);
      var lhs := tree.Back();
      var rhs := tree.Push(Operation(EQUAL, idx * 2, idx * 2 + 1));
      var r := tree.Push(Operation(LOGICAL_AND, lhs, rhs));
      assert tree.nodes == CompareRound(before, idx);
    }
  }

  /** BM_string_compare_ast_transform: `previous && comparison` in every round. */
  method BuildAndChain(treeLevels: nat) returns (tree: Tree)
    requires treeLevels > 0
    ensures fresh(tree) && tree.Valid()
    ensures Denotes(tree.nodes, 2 * treeLevels, FirstPairsEqual(treeLevels))
  {
    tree := PushReferences(2 * treeLevels);
    FirstComparison(2 * treeLevels);
    var r := tree.Push(Operation(EQUAL, 0, 1));
    CompareRemaining(tree, treeLevels);
  }

  /** BM_string_compare_binaryop_transform: `comparison && previous` in every round. */
  method AndChainColumns(table: seq<Column>, n: nat, treeLevels: nat) returns (reduction: Column)
    requires treeLevels > 0 && |table| == 2 * treeLevels && SameLength(table, n)
    ensures |reduction| == n
    ensures forall r :: 0 <= r < n ==> reduction[r] == PairsEqual(RowAt(table, r, n), treeLevels)
  {
    reduction := BinaryOperation(EQUAL, table[0], table[1]);
    forall r | 0 <= r < n ensures reduction[r] == PairsEqual(RowAt(table, r, n), 1) {
      PairStep(RowAt(table, r, n), 0);
    }
    for idx := 1 to treeLevels
      invariant |reduction| == n
      invariant forall r :: 0 <= r < n ==> reduction[r] == PairsEqual(RowAt(table, r, n), idx)
    {
      var comparison := BinaryOperation(EQUAL, table[idx * 2], table[idx * 2 + 1]);
      var reduced := BinaryOperation(LOGICAL_AND, comparison, reduction);
      forall r | 0 <= r < n ensures reduced[r] == PairsEqual(RowAt(table, r, n), idx + 1) {
        PairStep(RowAt(table, r, n), idx);
      }
      reduction := reduced;
    }
  }

  // ----- both benchmarks of a pair -----

  /** BM_ast_polynomials and BM_binaryop_polynomials on the same input compute the same column. */
  method PolynomialBothWays(x: Column, constants: seq<real>) returns (tree: Tree, loop: Column)
    requires |constants| >= 2
    ensures fresh(tree) && tree.Valid() && tree.nodes != []
    ensures ComputeColumn(tree.nodes, |tree.nodes| - 1, [x], |x|) == loop
  {
    tree := BuildPolynomial(constants);
    loop := PolynomialColumns(x, constants);
    TreeIsLoop(tree.nodes, [x], |x|, PolynomialOfOnly(constants), loop);
  }

  /** BM_ast_transform and BM_binaryop_transform without column reuse. */
  method AddChainBothWays(table: seq<Column>, n: nat) returns (tree: Tree, loop: Column)
    requires |table| >= 2 && SameLength(table, n)
    ensures fresh(tree) && tree.Valid() && tree.nodes != []
    ensures ComputeColumn(tree.nodes, |tree.nodes| - 1, table, n) == loop
  {
    tree := BuildAddChain(|table| - 1);
    loop := AddChainColumns(table, n);
    TreeIsLoop(tree.nodes, table, n, SumOf, loop);
  }

  /** BM_ast_transform and BM_binaryop_transform with column reuse. */
  method ReuseChainBothWays(x: Column, treeLevels: int) returns (tree: Tree, loop: Column)
    ensures fresh(tree) && tree.Valid() && tree.nodes != []
    ensures ComputeColumn(tree.nodes, |tree.nodes| - 1, [x], |x|) == loop
  {
    tree := BuildReuseChain(treeLevels);
    loop := ReuseChainColumns(x, treeLevels);
    TreeIsLoop(tree.nodes, [x], |x|, MultipleOfOnly(Times(treeLevels)), loop);
  }

  /** BM_string_compare_ast_transform and BM_string_compare_binaryop_transform. */
  method AndChainBothWays(table: seq<Column>, n: nat, treeLevels: nat) returns (tree: Tree, loop: Column)
    requires treeLevels > 0 && |table| == 2 * treeLevels && SameLength(table, n)
    ensures fresh(tree) && tree.Valid() && tree.nodes != []
    ensures ComputeColumn(tree.nodes, |tree.nodes| - 1, table, n) == loop
  {
    tree := BuildAndChain(treeLevels);
    loop := AndChainColumns(table, n, treeLevels);
    TreeIsLoop(tree.nodes, table, n, FirstPairsEqual(treeLevels), loop);
  }
}
