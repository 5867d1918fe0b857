/** `apply_groupby` and `apply_orderby`. */
module GroupBy {
  import opened Grouping
  import opened Relational
  import opened Schema
  import opened Sequences
  import opened Tables
  import opened Values

  // ----- the context and its requests -----

  /** groupby_context_t: the key columns and, per value column, the aggregations and their names. */
  datatype Context = Context(keys: seq<ColName>, values: map<ColName, seq<(Kind, ColName)>>)

  /** `order` is one of the orders in which the unordered map of values may be traversed. */
  ghost predicate Traverses(order: seq<ColName>, values: map<ColName, seq<(Kind, ColName)>>) {
    Distinct(order) && Elements(order) == values.Keys
  }

  function RequestsOf(c: ColName, aggs: seq<(Kind, ColName)>): (r: seq<Request>)
    ensures |r| == |aggs|
  {
    seq(|aggs|, i requires 0 <= i < |aggs| => Request(c, aggs[i].0, aggs[i].1))
  }

  /** All requests, in the order of the traversal. */
  function Flat(order: seq<ColName>, values: map<ColName, seq<(Kind, ColName)>>): seq<Request>
    requires forall c :: c in order ==> c in values
  {
    if order == [] then []
    else
      var last := order[|order| - 1];
      Flat(order[..|order| - 1], values) + RequestsOf(last, values[last])
  }

  predicate Supported(kind: Kind) {
    kind.SUM? || kind.MEAN? || kind.COUNT_ALL?
  }

  ghost predicate AllSupported(values: map<ColName, seq<(Kind, ColName)>>) {
    forall c :: c in values ==> AllKindsSupported(values[c])
  }

  function Name(r: Request): ColName {
    r.name
  }

  lemma {:induction false} FlatMembers(order: seq<ColName>, values: map<ColName, seq<(Kind, ColName)>>, r: Request)
    requires forall c :: c in order ==> c in values
    ensures r in Flat(order, values) <==> r.column in order && (r.kind, r.name) in values[r.column]
  {
    if order != [] {
      var init, last := order[..|order| - 1], order[|order| - 1];
      FlatMembers(init, values, r);
      assert order == init + [last];
      assert r in RequestsOf(last, values[last]) <==> r.column == last && (r.kind, r.name) in values[last] by {
        if r.column == last && (r.kind, r.name) in values[last] {
          var i :| 0 <= i < |values[last]| && values[last][i] == (r.kind, r.name);
          assert RequestsOf(last, values[last])[i] == r;
        }
      }
    }
  }

  // ----- libcudf's groupby -----

  /** The values whose key row is `key`. */
  function ValuesAt(keys: seq<Row>, values: seq<Value>, key: Row): seq<Value>
    requires |keys| == |values|
  {
    if keys == [] then [] else (if keys[0] == key then [values[0]] else []) + ValuesAt(keys[1..], values[1..], key)
  }

  function GroupKeys(keys: seq<Row>): (groups: seq<Row>)
    ensures Distinct(groups)
    ensures forall k :: k in groups <==> k in keys && Null !in k
  {
    if keys == [] then []
    else
      var rest := GroupKeys(keys[1..]);
      if keys[0] in rest || Null in keys[0] then rest else [keys[0]] + rest
  }

  datatype AggregationRequest = AggregationRequest(values: seq<Value>, kinds: seq<Kind>)

  /** `groupby::aggregate` with the default null policy: one label per distinct key without nulls, in
      no particular order, and for each request one column per aggregation, aligned with the labels. */
  method AggregateGroups(keys: seq<Row>, requests: seq<AggregationRequest>)
    returns (labels: seq<Row>, results: seq<seq<seq<Value>>>)
    requires forall i :: 0 <= i < |requests| ==> |requests[i].values| == |keys|
    ensures Distinct(labels)
    ensures forall k :: k in labels <==> k in keys && Null !in k
    ensures |results| == |requests|
    ensures forall i :: 0 <= i < |requests| ==> |results[i]| == |requests[i].kinds|
    ensures forall i, j :: 0 <= i < |requests| && 0 <= j < |requests[i].kinds| ==>
              results[i][j] == AggregateColumn(keys, requests[i].values, requests[i].kinds[j], labels)
  {
    labels := GroupKeys(keys);
    results := [];
    for i := 0 to |requests|
      invariant |results| == i
      invariant forall k :: 0 <= k < i ==> |results[k]| == |requests[k].kinds|
      invariant forall k, j :: 0 <= k < i && 0 <= j < |requests[k].kinds| ==>
                  results[k][j] == AggregateColumn(keys, requests[k].values, requests[k].kinds[j], labels)
    {
      var request := requests[i];
      results := results + [
        seq(|request.kinds|, j requires 0 <= j < |request.kinds| && |keys| == |request.values| =>
          AggregateColumn(keys, request.values, request.kinds[j], labels))];
    }
  }

  function AggregateColumn(keys: seq<Row>, values: seq<Value>, kind: Kind, labels: seq<Row>): (col: seq<Value>)
    requires |keys| == |values|
    ensures |col| == |labels|
    ensures forall g :: 0 <= g < |labels| ==> col[g] == Aggregate(kind, ValuesAt(keys, values, labels[g]))
  {
    seq(|labels|, g requires 0 <= g < |labels| => Aggregate(kind, ValuesAt(keys, values, labels[g])))
  }

  // ----- apply_groupby -----

  function KeyColumn(labels: seq<Row>, i: nat): seq<Value>
    requires forall g :: 0 <= g < |labels| ==> i < |labels[g]|
  {
    seq(|labels|, g requires 0 <= g < |labels| => labels[g][i])
  }

  function KeyColumns(labels: seq<Row>, width: nat): seq<seq<Value>>
    requires forall g :: 0 <= g < |labels| ==> width <= |labels[g]|
  {
    seq(width, i requires 0 <= i < width => KeyColumn(labels, i))
  }

  /** The column that answers one request. */
  function Answer(keys: seq<Row>, envs: seq<Env>, labels: seq<Row>): Request -> seq<Value> {
    (r: Request) => if |keys| == |envs| then AggregateColumn(keys, Map(Getter(r.column), envs), r.kind, labels) else []
  }

  function FromColumns(cols: seq<seq<Value>>, n: nat): (t: Table)
    requires forall i :: 0 <= i < |cols| ==> |cols[i]| == n
    ensures Rectangular(t) && t.width == |cols| && |t.rows| == n
    ensures forall g, i :: 0 <= g < n && 0 <= i < |cols| ==> t.rows[g][i] == cols[i][g]
  {
    Table(|cols|, seq(n, g requires 0 <= g < n => seq(|cols|, i requires 0 <= i < |cols| => cols[i][g])))
  }

  function HasKey(keys: seq<ColName>, lbl: Row): Env -> bool {
    e => SelectEnv(keys)(e) == lbl
  }

  /** What apply_groupby delivers, column by column: first the key columns, one row per distinct key
      without nulls; then, for the k-th request, the aggregate of exactly that request's column over
      the rows with that key. */
  ghost predicate IsGroupTable(envs: seq<Env>, keys: seq<ColName>, flat: seq<Request>, out: seq<Row>) {
    && (forall g :: 0 <= g < |out| ==> |out[g]| == |keys| + |flat|)
    && (forall g, h :: 0 <= g < h < |out| ==> out[g][..|keys|] != out[h][..|keys|])
    && (forall g :: 0 <= g < |out| ==> Null !in out[g][..|keys|])
    && (forall g :: 0 <= g < |out| ==> out[g][..|keys|] in Map(SelectEnv(keys), envs))
    && (forall e :: e in envs && Null !in SelectEnv(keys)(e) ==>
          exists g :: 0 <= g < |out| && out[g][..|keys|] == SelectEnv(keys)(e))
    && (forall g, k :: 0 <= g < |out| && 0 <= k < |flat| ==>
          out[g][|keys| + k]
              == Aggregate(flat[k].kind, Map(Getter(flat[k].column), Filter(HasKey(keys, out[g][..|keys|]), envs))))
  }

  lemma FlatStep(order: seq<ColName>, i: nat, values: map<ColName, seq<(Kind, ColName)>>)
    requires i < |order| && forall c :: c in order ==> c in values
    ensures Flat(order[..i + 1], values) == Flat(order[..i], values) + RequestsOf(order[i], values[order[i]])
  {
    assert order[..i + 1][..i] == order[..i];
  }

  lemma {:induction false} ValuesAtEnvs(envs: seq<Env>, keys: seq<ColName>, c: ColName, lbl: Row)
    ensures ValuesAt(Map(SelectEnv(keys), envs), Map(Getter(c), envs), lbl)
         == Map(Getter(c), Filter(HasKey(keys, lbl), envs))
  {
    if envs != [] {
      ValuesAtEnvs(envs[1..], keys, c, lbl);
      assert Map(SelectEnv(keys), envs)[1..] == Map(SelectEnv(keys), envs[1..]);
      assert Map(Getter(c), envs)[1..] == Map(Getter(c), envs[1..]);
      FilterMapHead(HasKey(keys, lbl), Getter(c), envs);
    }
  }

  lemma FilterMapHead(p: Env -> bool, f: Env -> Value, envs: seq<Env>)
    requires envs != []
    ensures Map(f, Filter(p, envs)) == (if p(envs[0]) then [f(envs[0])] else []) + Map(f, Filter(p, envs[1..]))
  {
    var head := if p(envs[0]) then [envs[0]] else [];
    assert Filter(p, envs) == head + Filter(p, envs[1..]);
    MapConcat(f, head, Filter(p, envs[1..]));
  }

  lemma GroupTable(envs: seq<Env>, keys: seq<ColName>, flat: seq<Request>, labels: seq<Row>, out: seq<Row>)
    requires Distinct(labels)
    requires forall k :: k in labels <==> k in Map(SelectEnv(keys), envs) && Null !in k
    requires |out| == |labels|
    requires forall g :: 0 <= g < |out| ==> |labels[g]| == |keys| && |out[g]| == |keys| + |flat|
    requires forall g, i :: 0 <= g < |out| && 0 <= i < |keys| ==> out[g][i] == labels[g][i]
    requires forall g, k :: 0 <= g < |out| && 0 <= k < |flat| ==>
               out[g][|keys| + k] == Answer(Map(SelectEnv(keys), envs), envs, labels)(flat[k])[g]
    ensures IsGroupTable(envs, keys, flat, out)
  {
    forall g | 0 <= g < |out| ensures out[g][..|keys|] == labels[g] && labels[g] in labels {
    }
    forall e | e in envs && Null !in SelectEnv(keys)(e)
      ensures exists g :: 0 <= g < |out| && out[g][..|keys|] == SelectEnv(keys)(e)
    {
      var i :| 0 <= i < |envs| && envs[i] == e;
      assert Map(SelectEnv(keys), envs)[i] in labels;
    }
    forall g, k | 0 <= g < |out| && 0 <= k < |flat|
      ensures out[g][|keys| + k]
           == Aggregate(flat[k].kind, Map(Getter(flat[k].column), Filter(HasKey(keys, out[g][..|keys|]), envs)))
    {
      ValuesAtEnvs(envs, keys, flat[k].column, labels[g]);
    }
  }

  /** The inner loop over one value column's aggregations: their kinds, and their names appended to
      the result names. */
  method AddAggregations(c: ColName, aggregations: seq<(Kind, ColName)>, base: seq<ColName>)
    returns (kinds: Result<seq<Kind>>, names: seq<ColName>)
    ensures kinds.Ok? <==> AllKindsSupported(aggregations)
    ensures kinds.Ok? ==> names == base + Map(Name, RequestsOf(c, aggregations))
    ensures kinds.Ok? ==> |kinds.value| == |aggregations|
    ensures kinds.Ok? ==> forall j :: 0 <= j < |aggregations| ==> kinds.value[j] == aggregations[j].0
  {
    names := base;
    var pushed: seq<Kind> := [];
    for j := 0 to |aggregations|
      invariant |pushed| == j
      invariant forall k :: 0 <= k < j ==> pushed[k] == aggregations[k].0 && Supported(pushed[k])
      invariant names == base + Map(Name, RequestsOf(c, aggregations)[..j])
    {
      if !Supported(aggregations[j].0) {
        return Err(UnsupportedAggregation), names;
      }
      pushed := pushed + [aggregations[j].0];
      names := names + [aggregations[j].1];
    }
    assert RequestsOf(c, aggregations)[..|aggregations|] == RequestsOf(c, aggregations);
    return Ok(pushed), names;
  }

  lemma NextNames(keys: seq<ColName>, order: seq<ColName>, i: nat, values: map<ColName, seq<(Kind, ColName)>>)
    requires i < |order| && forall c :: c in order ==> c in values
    ensures keys + Map(Name, Flat(order[..i + 1], values))
         == (keys + Map(Name, Flat(order[..i], values))) + Map(Name, RequestsOf(order[i], values[order[i]]))
  {
    FlatStep(order, i, values);
    MapConcat(Name, Flat(order[..i], values), RequestsOf(order[i], values[order[i]]));
    ConcatAssociates(keys, Map(Name, Flat(order[..i], values)), Map(Name, RequestsOf(order[i], values[order[i]])));
  }

  /** The first loop of apply_groupby: one request per value column, one name per aggregation. */
  method BuildRequests(table: TableWithNames, ctx: Context, order: seq<ColName>)
    returns (r: Result<seq<AggregationRequest>>, names: seq<ColName>)
    requires table.Valid() && Traverses(order, ctx.values)
    ensures r.Ok? <==> ctx.values.Keys <= Elements(table.colNames) && AllSupported(ctx.values)
    ensures r.Ok? ==> names == ctx.keys + Map(Name, Flat(order, ctx.values))
    ensures r.Ok? ==> Answers(r.value, table.Envs(), order, ctx.values)
  {
    names := ctx.keys;
    var requests: seq<AggregationRequest> := [];
    ghost var envs := table.Envs();
    for i := 0 to |order|
      invariant forall k :: 0 <= k < i ==> order[k] in table.colNames && AllKindsSupported(ctx.values[order[k]])
      invariant Answers(requests, envs, order[..i], ctx.values)
      invariant names == ctx.keys + Map(Name, Flat(order[..i], ctx.values))
    {
      assert order[i] in Elements(order);
      var kinds, more := AddAggregations(order[i], ctx.values[order[i]], names);
      if kinds.Err? {
        return Err(kinds.error), names;
      }
      var column := table.Column(order[i]);
      if column.Err? {
        return Err(column.error), names;
      }
      var request := AggregationRequest(column.value, kinds.value);
      ExtendAnswers(requests, envs, order, i, ctx.values, request);
      NextNames(ctx.keys, order, i, ctx.values);
      names := more;
      requests := requests + [request];
    }
    assert order[..|order|] == order;
    forall c | c in ctx.values ensures c in table.colNames && AllKindsSupported(ctx.values[c]) {
      assert c in Elements(order);
    }
    return Ok(requests), names;
  }

  lemma ExtendAnswers(requests: seq<AggregationRequest>, envs: seq<Env>, order: seq<ColName>, i: nat,
                      values: map<ColName, seq<(Kind, ColName)>>, request: AggregationRequest)
    requires i < |order| && Answers(requests, envs, order[..i], values)
    requires order[i] in values && request.values == Map(Getter(order[i]), envs)
    requires |request.kinds| == |values[order[i]]|
    requires forall j :: 0 <= j < |request.kinds| ==> request.kinds[j] == values[order[i]][j].0
    ensures Answers(requests + [request], envs, order[..i + 1], values)
  {
    forall k | 0 <= k <= i ensures order[..i + 1][k] == if k < i then order[..i][k] else order[i] {
    }
  }

  predicate AllKindsSupported(aggs: seq<(Kind, ColName)>) {
    forall i :: 0 <= i < |aggs| ==> aggs[i].0 != OTHER
  }

  /** The k-th request asks for the k-th value column and its aggregations. */
  ghost predicate Answers(requests: seq<AggregationRequest>, envs: seq<Env>, order: seq<ColName>,
                          values: map<ColName, seq<(Kind, ColName)>>)
  {
    && |requests| == |order|
    && forall k :: 0 <= k < |order| ==>
         && order[k] in values
         && requests[k].values == Map(Getter(order[k]), envs)
         && |requests[k].kinds| == |values[order[k]]|
         && forall j :: 0 <= j < |requests[k].kinds| ==> requests[k].kinds[j] == values[order[k]][j].0
  }

  /** What AggregateGroups delivered for the requests of each value column. */
  ghost predicate Answered(results: seq<seq<seq<Value>>>, answer: Request -> seq<Value>, order: seq<ColName>,
                           values: map<ColName, seq<(Kind, ColName)>>)
  {
    && |results| == |order|
    && forall i :: 0 <= i < |order| ==>
         && order[i] in values
         && results[i] == Map(answer, RequestsOf(order[i], values[order[i]]))
  }

  lemma ResultsAnswer(requests: seq<AggregationRequest>, results: seq<seq<seq<Value>>>, keys: seq<Row>, envs: seq<Env>,
                      labels: seq<Row>, order: seq<ColName>, values: map<ColName, seq<(Kind, ColName)>>)
    requires Answers(requests, envs, order, values) && |keys| == |envs|
    requires |results| == |requests|
    requires forall i :: 0 <= i < |requests| ==> |results[i]| == |requests[i].kinds|
    requires forall i, j :: 0 <= i < |requests| && 0 <= j < |requests[i].kinds| ==>
               results[i][j] == AggregateColumn(keys, requests[i].values, requests[i].kinds[j], labels)
    ensures Answered(results, Answer(keys, envs, labels), order, values)
  {
    forall i | 0 <= i < |order|
      ensures results[i] == Map(Answer(keys, envs, labels), RequestsOf(order[i], values[order[i]]))
    {
      var here := RequestsOf(order[i], values[order[i]]);
      forall j | 0 <= j < |results[i]| ensures results[i][j] == Answer(keys, envs, labels)(here[j]) {
      }
    }
  }

  /** The loop over the label columns. */
  method CollectKeys(labels: seq<Row>, width: nat) returns (columns: seq<seq<Value>>)
    requires forall g :: 0 <= g < |labels| ==> |labels[g]| == width
    ensures columns == KeyColumns(labels, width)
  {
    columns := [];
    for i := 0 to width
      invariant columns == KeyColumns(labels, i)
    {
      columns := columns + [KeyColumn(labels, i)];
    }
  }

  /** The inner loop over one request's results. */
  method MoveAll(columns: seq<seq<Value>>, results: seq<seq<Value>>) returns (more: seq<seq<Value>>)
    ensures more == columns + results
  {
    more := columns;
    for j := 0 to |results|
      invariant more == columns + results[..j]
    {
      more := more + [results[j]];
    }
    assert results[..|results|] == results;
  }

  lemma NextAnswers(answer: Request -> seq<Value>, order: seq<ColName>, i: nat,
                    values: map<ColName, seq<(Kind, ColName)>>)
    requires i < |order| && forall c :: c in order ==> c in values
    ensures Map(answer, Flat(order[..i + 1], values))
         == Map(answer, Flat(order[..i], values)) + Map(answer, RequestsOf(order[i], values[order[i]]))
  {
    FlatStep(order, i, values);
    MapConcat(answer, Flat(order[..i], values), RequestsOf(order[i], values[order[i]]));
  }

  /** The second part of apply_groupby: the key columns, then the result columns one after another. */
  method CollectColumns(ghost answer: Request -> seq<Value>, labels: seq<Row>, width: nat, ghost order: seq<ColName>,
                        ghost values: map<ColName, seq<(Kind, ColName)>>, results: seq<seq<seq<Value>>>)
    returns (columns: seq<seq<Value>>)
    requires Answered(results, answer, order, values)
    requires forall g :: 0 <= g < |labels| ==> |labels[g]| == width
    ensures columns == KeyColumns(labels, width) + Map(answer, Flat(order, values))
  {
    columns := CollectKeys(labels, width);
    ghost var keyColumns := columns;
    for i := 0 to |results|
      invariant columns == keyColumns + Map(answer, Flat(order[..i], values))
    {
      NextAnswers(answer, order, i, values);
      ConcatAssociates(keyColumns, Map(answer, Flat(order[..i], values)), results[i]);
      columns := MoveAll(columns, results[i]);
    }
    assert order[..|results|] == order;
  }

  /** The rows of the selected key columns. */
  method KeyRows(table: TableWithNames, keys: seq<ColName>) returns (r: Result<seq<Row>>)
    requires table.Valid()
    ensures r.Ok? <==> Elements(keys) <= Elements(table.colNames)
    ensures r.Ok? ==> r.value == Map(SelectEnv(keys), table.Envs())
  {
    var cols :- table.Indexes(keys);
    var rows := SelectAll(table.tbl, cols);
    forall i | 0 <= i < |rows| ensures rows[i] == SelectEnv(keys)(table.Envs()[i]) {
    }
    return Ok(rows);
  }

  /** The columns put side by side, read row by row. */
  lemma ColumnsByRow(labels: seq<Row>, width: nat, answer: Request -> seq<Value>, flat: seq<Request>, out: Table)
    requires forall g :: 0 <= g < |labels| ==> |labels[g]| == width
    requires forall k :: 0 <= k < |flat| ==> |answer(flat[k])| == |labels|
    requires out == FromColumns(KeyColumns(labels, width) + Map(answer, flat), |labels|)
    ensures |out.rows| == |labels| && out.width == width + |flat| && Rectangular(out)
    ensures forall g, i :: 0 <= g < |labels| && 0 <= i < width ==> out.rows[g][i] == labels[g][i]
    ensures forall g, k :: 0 <= g < |labels| && 0 <= k < |flat| ==> out.rows[g][width + k] == answer(flat[k])[g]
  {
    var columns := KeyColumns(labels, width) + Map(answer, flat);
    forall g, i | 0 <= g < |labels| && 0 <= i < width ensures out.rows[g][i] == labels[g][i] {
      assert columns[i] == KeyColumn(labels, i);
    }
    forall g, k | 0 <= g < |labels| && 0 <= k < |flat| ensures out.rows[g][width + k] == answer(flat[k])[g] {
      assert columns[width + k] == answer(flat[k]);
    }
  }

  lemma ColumnsAreGroups(envs: seq<Env>, keys: seq<ColName>, flat: seq<Request>, labels: seq<Row>, out: Table)
    requires Distinct(labels) && forall k :: k in labels <==> k in Map(SelectEnv(keys), envs) && Null !in k
    requires forall g :: 0 <= g < |labels| ==> |labels[g]| == |keys|
    requires out == FromColumns(KeyColumns(labels, |keys|)
                                + Map(Answer(Map(SelectEnv(keys), envs), envs, labels), flat), |labels|)
    ensures Rectangular(out) && out.width == |keys| + |flat| && IsGroupTable(envs, keys, flat, out.rows)
  {
    ColumnsByRow(labels, |keys|, Answer(Map(SelectEnv(keys), envs), envs, labels), flat, out);
    GroupTable(envs, keys, flat, labels, out.rows);
  }

  lemma NoRowsNoGroups(envs: seq<Env>, keys: seq<ColName>, flat: seq<Request>, out: seq<Row>)
    requires envs == [] && IsGroupTable(envs, keys, flat, out)
    ensures out == []
  {
    assert out != [] ==> out[0][..|keys|] in Map(SelectEnv(keys), envs);
  }

  /** Aggregates, and puts the group labels and all result columns side by side. */
  method AggregateTable(ghost envs: seq<Env>, keyRows: seq<Row>, ctx: Context, order: seq<ColName>,
                        requests: seq<AggregationRequest>)
    returns (out: Table)
    requires Traverses(order, ctx.values)
    requires Answers(requests, envs, order, ctx.values)
    requires keyRows == Map(SelectEnv(ctx.keys), envs)
    ensures Rectangular(out) && out.width == |ctx.keys| + |Flat(order, ctx.values)|
    ensures IsGroupTable(envs, ctx.keys, Flat(order, ctx.values), out.rows)
  {
    var labels, results := AggregateGroups(keyRows, requests);
    forall g | 0 <= g < |labels| ensures |labels[g]| == |ctx.keys| {
      assert labels[g] in labels;
    }
    ResultsAnswer(requests, results, keyRows, envs, labels, order, ctx.values);
    var columns := CollectColumns(Answer(keyRows, envs, labels), labels, |ctx.keys|, order, ctx.values, results);
    out := FromColumns(columns, |labels|);
    ColumnsAreGroups(envs, ctx.keys, Flat(order, ctx.values), labels, out);
  }

  /** Fails exactly when a key or value column is missing, an aggregation is not supported, or there are
      rows and requests but no key columns, whose table has no rows. Otherwise, whatever the traversal order
      of the values, every result column answers the request whose name it bears; a table without columns
      has no rows. */
  method ApplyGroupBy(table: TableWithNames, ctx: Context, order: seq<ColName>) returns (r: Result<TableWithNames>)
    requires table.Valid() && Traverses(order, ctx.values)
    ensures r.Ok? <==> Elements(ctx.keys) <= Elements(table.colNames) && ctx.values.Keys <= Elements(table.colNames)
                       && AllSupported(ctx.values)
                       && (ctx.keys == [] && table.tbl.rows != [] ==> ctx.values == map[])
    ensures r.Ok? ==> fresh(r.value) && r.value.Valid()
    ensures r.Ok? ==> r.value.colNames == ctx.keys + Map(Name, Flat(order, ctx.values))
    ensures r.Ok? && ctx.keys == [] ==> r.value.tbl.rows == []
    ensures r.Ok? && (ctx.keys != [] || table.tbl.rows == []) ==>
              IsGroupTable(table.Envs(), ctx.keys, Flat(order, ctx.values), r.value.tbl.rows)
  {
    var keys :- KeyRows(table, ctx.keys);
    var requests, names := BuildRequests(table, ctx, order);
    if requests.Err? {
      return Err(requests.error);
    }
    if ctx.keys == [] && table.tbl.rows != [] {
      if |order| > 0 {
        return Err(SizeMismatch);
      }
      var empty := new TableWithNames(Table(|names|, []), names);
      return Ok(empty);
    }
    var out := AggregateTable(table.Envs(), keys, ctx, order, requests.value);
    if ctx.keys == [] {
      NoRowsNoGroups(table.Envs(), ctx.keys, Flat(order, ctx.values), out.rows);
    }
    var result := new TableWithNames(out, names);
    return Ok(result);
  }

  // ----- what the result means by name -----

  lemma LabelNulls(keys: seq<ColName>, lbl: Row)
    requires Distinct(keys) && |lbl| == |keys|
    ensures Null !in lbl <==> NullFree(EnvOf(keys, lbl))
  {
    forall i | 0 <= i < |keys| ensures keys[i] in EnvOf(keys, lbl) && EnvOf(keys, lbl)[keys[i]] == lbl[i] {
      FindDistinct(keys, i);
      assert keys[i] in keys;
    }
    forall c | c in keys ensures EnvOf(keys, lbl)[c] in lbl {
    }
  }

  lemma KeyOfRow(keys: seq<ColName>, e: Env, lbl: Row)
    requires Distinct(keys) && Elements(keys) <= e.Keys && |lbl| == |keys|
    ensures HasKey(keys, lbl)(e) <==> InGroup(EnvOf(keys, lbl))(e)
    ensures Null !in lbl <==> NullFree(EnvOf(keys, lbl))
  {
    LabelNulls(keys, lbl);
    SelectedEnv(keys, e);
    var mine := SelectEnv(keys)(e);
    forall i | 0 <= i < |keys| ensures EnvOf(keys, lbl)[keys[i]] == lbl[i] && EnvOf(keys, mine)[keys[i]] == mine[i] {
      FindDistinct(keys, i);
      assert keys[i] in keys;
    }
    if EnvOf(keys, mine) == EnvOf(keys, lbl) {
      forall i | 0 <= i < |keys| ensures mine[i] == lbl[i] {
        assert EnvOf(keys, mine)[keys[i]] == EnvOf(keys, lbl)[keys[i]];
      }
      assert mine == lbl;
    }
  }

  lemma NamesOf(flat: seq<Request>)
    ensures Elements(Map(Name, flat)) == Names(flat)
  {
    forall i | 0 <= i < |flat| ensures Map(Name, flat)[i] in Names(flat) && flat[i].name in Map(Name, flat) {
      assert flat[i] in flat;
      assert Map(Name, flat)[i] == flat[i].name;
    }
  }

  lemma KeyNamed(keys: seq<ColName>, flat: seq<Request>, i: nat)
    requires Distinct(keys + Map(Name, flat)) && i < |keys|
    ensures Find(keys + Map(Name, flat), keys[i]) == i
  {
    FindDistinct(keys + Map(Name, flat), i);
  }

  lemma RequestNamed(keys: seq<ColName>, flat: seq<Request>, k: nat)
    requires Distinct(keys + Map(Name, flat)) && k < |flat|
    ensures (keys + Map(Name, flat))[|keys| + k] == flat[k].name
    ensures Find(keys + Map(Name, flat), flat[k].name) == |keys| + k
  {
    FindDistinct(keys + Map(Name, flat), |keys| + k);
  }

  lemma OutputNames(keys: seq<ColName>, flat: seq<Request>)
    requires Distinct(keys + Map(Name, flat))
    ensures Distinct(keys) && DistinctNames(Elements(keys), flat)
    ensures Elements(keys + Map(Name, flat)) == Elements(keys) + Names(flat)
  {
    var names := keys + Map(Name, flat);
    forall i, j | 0 <= i < j < |keys| ensures keys[i] != keys[j] {
      assert names[i] != names[j];
    }
    forall i, j | 0 <= i < j < |flat| ensures flat[i].name != flat[j].name {
      assert names[|keys| + i] != names[|keys| + j];
    }
    forall i, j | 0 <= i < |flat| && 0 <= j < |keys| ensures flat[i].name != keys[j] {
      assert names[|keys| + i] != names[j];
    }
    NamesOf(flat);
    assert Elements(names) == Elements(keys) + Elements(Map(Name, flat));
  }

  lemma OutputKey(keys: seq<ColName>, flat: seq<Request>, row: Row)
    requires Distinct(keys + Map(Name, flat)) && |row| == |keys| + |flat|
    ensures Restrict(EnvOf(keys + Map(Name, flat), row), Elements(keys)) == EnvOf(keys, row[..|keys|])
  {
    var names, lbl := keys + Map(Name, flat), row[..|keys|];
    OutputNames(keys, flat);
    forall c | c in keys ensures c in names && EnvOf(names, row)[c] == EnvOf(keys, lbl)[c] {
      var i := Find(keys, c);
      KeyNamed(keys, flat, i);
      assert names[i] == c;
    }
  }

  lemma OutputValues(envs: seq<Env>, keys: seq<ColName>, lbl: Row, c: ColName)
    requires forall e :: e in envs ==> Elements(keys) <= e.Keys
    requires Distinct(keys) && |lbl| == |keys|
    ensures Map(Getter(c), Filter(HasKey(keys, lbl), envs)) == GroupValues(envs, EnvOf(keys, lbl), c)
  {
    forall e | e in envs ensures HasKey(keys, lbl)(e) == InGroup(EnvOf(keys, lbl))(e) {
      KeyOfRow(keys, e, lbl);
    }
    FilterSame(HasKey(keys, lbl), InGroup(EnvOf(keys, lbl)), envs);
  }

  lemma NamedCell(keys: seq<ColName>, flat: seq<Request>, row: Row, k: nat)
    requires Distinct(keys + Map(Name, flat)) && |row| == |keys| + |flat| && k < |flat|
    ensures flat[k].name in EnvOf(keys + Map(Name, flat), row)
    ensures EnvOf(keys + Map(Name, flat), row)[flat[k].name] == row[|keys| + k]
  {
    var names := keys + Map(Name, flat);
    RequestNamed(keys, flat, k);
    assert names[|keys| + k] in names;
  }

  lemma OutputCell(envs: seq<Env>, keys: seq<ColName>, flat: seq<Request>, row: Row, k: nat)
    requires Distinct(keys + Map(Name, flat)) && |row| == |keys| + |flat| && k < |flat|
    requires forall e :: e in envs ==> Elements(keys) <= e.Keys
    requires row[|keys| + k]
          == Aggregate(flat[k].kind, Map(Getter(flat[k].column), Filter(HasKey(keys, row[..|keys|]), envs)))
    ensures flat[k].name in EnvOf(keys + Map(Name, flat), row)
    ensures EnvOf(keys + Map(Name, flat), row)[flat[k].name]
         == Aggregate(flat[k].kind, GroupValues(envs, EnvOf(keys, row[..|keys|]), flat[k].column))
  {
    NamedCell(keys, flat, row, k);
    OutputNames(keys, flat);
    OutputValues(envs, keys, row[..|keys|], flat[k].column);
  }

  lemma OutputAnswers(envs: seq<Env>, keys: seq<ColName>, flat: seq<Request>, row: Row)
    requires Distinct(keys + Map(Name, flat)) && |row| == |keys| + |flat|
    requires forall e :: e in envs ==> Elements(keys) <= e.Keys
    requires forall k :: 0 <= k < |flat| ==>
               row[|keys| + k]
               == Aggregate(flat[k].kind, Map(Getter(flat[k].column), Filter(HasKey(keys, row[..|keys|]), envs)))
    ensures AnswersAll(EnvOf(keys + Map(Name, flat), row), envs, EnvOf(keys, row[..|keys|]), flat)
  {
    OutputNames(keys, flat);
    OutputKey(keys, flat, row);
    var key, env := EnvOf(keys, row[..|keys|]), EnvOf(keys + Map(Name, flat), row);
    forall k | 0 <= k < |flat|
      ensures flat[k].name in env
      ensures env[flat[k].name] == Aggregate(flat[k].kind, GroupValues(envs, key, flat[k].column))
    {
      OutputCell(envs, keys, flat, row, k);
    }
  }

  lemma OutputRow(envs: seq<Env>, keys: seq<ColName>, flat: seq<Request>, out: seq<Row>, g: nat)
    requires IsGroupTable(envs, keys, flat, out) && g < |out|
    requires forall e :: e in envs ==> Elements(keys) <= e.Keys
    requires Distinct(keys + Map(Name, flat))
    ensures EnvOf(keys + Map(Name, flat), out[g]) == GroupRow(envs, EnvOf(keys, out[g][..|keys|]), flat)
  {
    var key := EnvOf(keys, out[g][..|keys|]);
    OutputNames(keys, flat);
    OutputAnswers(envs, keys, flat, out[g]);
    GroupRowAnswers(envs, key, flat);
    AnswersUnique(EnvOf(keys + Map(Name, flat), out[g]), GroupRow(envs, key, flat), envs, key, flat);
  }

  lemma OutputDistinct(keys: seq<ColName>, flat: seq<Request>, a: Row, b: Row)
    requires Distinct(keys + Map(Name, flat)) && |a| == |b| == |keys| + |flat|
    requires a[..|keys|] != b[..|keys|]
    ensures EnvOf(keys + Map(Name, flat), a) != EnvOf(keys + Map(Name, flat), b)
  {
    var names := keys + Map(Name, flat);
    var i :| 0 <= i < |keys| && a[i] != b[i];
    KeyNamed(keys, flat, i);
    assert names[i] == keys[i];
    assert EnvOf(names, a)[names[i]] == a[i] && EnvOf(names, b)[names[i]] == b[i];
  }

  lemma GroupOfRow(envs: seq<Env>, keys: seq<ColName>, flat: seq<Request>, out: seq<Row>, g: nat)
    requires IsGroupTable(envs, keys, flat, out) && g < |out|
    requires forall e :: e in envs ==> Elements(keys) <= e.Keys
    requires Distinct(keys + Map(Name, flat))
    ensures EnvOf(keys + Map(Name, flat), out[g]) in Groups(envs, Elements(keys), flat, true)
  {
    OutputNames(keys, flat);
    var lbl := out[g][..|keys|];
    var i :| 0 <= i < |envs| && Map(SelectEnv(keys), envs)[i] == lbl;
    assert envs[i] in envs;
    OutputRow(envs, keys, flat, out, g);
    SelectedEnv(keys, envs[i]);
    KeyOfRow(keys, envs[i], lbl);
  }

  lemma RowOfGroup(envs: seq<Env>, keys: seq<ColName>, flat: seq<Request>, out: seq<Row>, e: Env) returns (g: nat)
    requires IsGroupTable(envs, keys, flat, out)
    requires forall e :: e in envs ==> Elements(keys) <= e.Keys
    requires Distinct(keys + Map(Name, flat))
    requires e in envs && NullFree(Restrict(e, Elements(keys)))
    ensures g < |out| && EnvOf(keys + Map(Name, flat), out[g]) == GroupRow(envs, Restrict(e, Elements(keys)), flat)
  {
    OutputNames(keys, flat);
    SelectedEnv(keys, e);
    KeyOfRow(keys, e, SelectEnv(keys)(e));
    g :| 0 <= g < |out| && out[g][..|keys|] == SelectEnv(keys)(e);
    OutputRow(envs, keys, flat, out, g);
  }

  /** apply_groupby computes GROUP BY over the rows whose key has no null, each group once. */
  lemma GroupTableIsGroups(envs: seq<Env>, keys: seq<ColName>, flat: seq<Request>, out: seq<Row>)
    requires IsGroupTable(envs, keys, flat, out)
    requires forall e :: e in envs ==> Elements(keys) <= e.Keys
    requires Distinct(keys + Map(Name, flat))
    ensures Elements(RowsOf(keys + Map(Name, flat), out)) == Groups(envs, Elements(keys), flat, true)
    ensures Distinct(RowsOf(keys + Map(Name, flat), out))
  {
    var rows, want := RowsOf(keys + Map(Name, flat), out), Groups(envs, Elements(keys), flat, true);
    forall g | 0 <= g < |out| ensures rows[g] in want {
      GroupOfRow(envs, keys, flat, out, g);
    }
    forall r | r in want ensures r in rows {
      var e :| e in envs && NullFree(Restrict(e, Elements(keys)))
          && r == GroupRow(envs, Restrict(e, Elements(keys)), flat);
      var g := RowOfGroup(envs, keys, flat, out, e);
      assert rows[g] == r;
    }
    forall g, h | 0 <= g < h < |rows| ensures rows[g] != rows[h] {
      OutputDistinct(keys, flat, out[g], out[h]);
    }
  }

  // ----- order by -----

  datatype Order = ASCENDING | DESCENDING

  /** Lexicographic comparison of sort keys, each in its direction. */
  predicate KeyLe(a: Row, b: Row, orders: seq<Order>) {
    if a == [] || b == [] || orders == [] then true
    else
      var up, down := ValueLe(a[0], b[0]), ValueLe(b[0], a[0]);
      if up && down then KeyLe(a[1..], b[1..], orders[1..])
      else if orders[0].ASCENDING? then up else down
  }

  lemma {:induction false} KeyLeOrder(a: Row, b: Row, c: Row, orders: seq<Order>)
    requires |a| == |b| == |c|
    ensures KeyLe(a, b, orders) || KeyLe(b, a, orders)
    ensures KeyLe(a, b, orders) && KeyLe(b, c, orders) ==> KeyLe(a, c, orders)
  {
    if a != [] && orders != [] {
      KeyLeOrder(a[1..], b[1..], c[1..], orders[1..]);
      ValueLeOrder(a[0], b[0], c[0]);
      ValueLeOrder(b[0], c[0], a[0]);
      ValueLeOrder(c[0], a[0], b[0]);
      ValueLeOrder(c[0], b[0], a[0]);
      ValueLeOrder(a[0], c[0], b[0]);
      ValueLeOrder(b[0], a[0], c[0]);
    }
  }

  /** The keys agree before `k`, and there the first is before the second in the direction of that key. */
  ghost predicate Precedes(a: Row, b: Row, orders: seq<Order>, k: nat) {
    && k < |a| && k < |b| && k < |orders| && a[..k] == b[..k]
    && if orders[k] == ASCENDING then Below(a[k], b[k]) else Below(b[k], a[k])
  }

  lemma PrecedesRest(a: Row, b: Row, orders: seq<Order>, k: nat)
    requires a != [] && b != [] && orders != [] && a[0] == b[0]
    ensures Precedes(a, b, orders, k + 1) <==> Precedes(a[1..], b[1..], orders[1..], k)
  {
    if k + 1 <= |a| && k + 1 <= |b| {
      assert a[..k + 1] == [a[0]] + a[1..][..k] && b[..k + 1] == [b[0]] + b[1..][..k];
      assert a[1..][..k] == a[..k + 1][1..] && b[1..][..k] == b[..k + 1][1..];
    }
  }

  /** Keys are in order when they are the same, or where they first differ they are in that key's direction. */
  lemma {:induction false} KeyLeMeans(a: Row, b: Row, orders: seq<Order>)
    requires |a| == |b| == |orders|
    ensures KeyLe(a, b, orders) <==> InOrder(a, b, orders)
  {
    if a != [] {
      KeyLeMeans(a[1..], b[1..], orders[1..]);
      ValueLeMeans(a[0], b[0]);
      ValueLeMeans(b[0], a[0]);
      assert a == [a[0]] + a[1..] && b == [b[0]] + b[1..];
      if a[0] == b[0] {
        if k: nat :| Precedes(a, b, orders, k) {
          PrecedesRest(a, b, orders, k - 1);
        }
        if k: nat :| Precedes(a[1..], b[1..], orders[1..], k) {
          PrecedesRest(a, b, orders, k);
        }
      } else {
        assert forall k: nat :: Precedes(a, b, orders, k) ==> k == 0 || a[..k][0] == b[..k][0];
        assert KeyLe(a, b, orders) ==> Precedes(a, b, orders, 0);
      }
    }
  }

  function SortKey(row: Row, cols: seq<nat>): (key: Row)
    ensures |key| == |cols|
  {
    seq(|cols|, i requires 0 <= i < |cols| => if cols[i] < |row| then row[cols[i]] else Null)
  }

  function RowOrder(cols: seq<nat>, orders: seq<Order>): (Row, Row) -> bool {
    (a, b) => KeyLe(SortKey(a, cols), SortKey(b, cols), orders)
  }

  lemma RowOrderTotal(cols: seq<nat>, orders: seq<Order>)
    ensures TotalPreorder(RowOrder(cols, orders))
  {
    forall a: Row, b: Row, c: Row
      ensures RowOrder(cols, orders)(a, b) || RowOrder(cols, orders)(b, a)
      ensures RowOrder(cols, orders)(a, b) && RowOrder(cols, orders)(b, c) ==> RowOrder(cols, orders)(a, c)
    {
      KeyLeOrder(SortKey(a, cols), SortKey(b, cols), SortKey(c, cols), orders);
    }
  }

  /** The keys are the same, or the first precedes the second. */
  ghost predicate InOrder(a: Row, b: Row, orders: seq<Order>) {
    a == b || exists k: nat :: Precedes(a, b, orders, k)
  }

  /** The rows by name, sorted on the listed columns. */
  ghost predicate SortedBy(envs: seq<Env>, keys: seq<ColName>, orders: seq<Order>) {
    forall i, j :: 0 <= i < j < |envs| ==> InOrder(SelectEnv(keys)(envs[i]), SelectEnv(keys)(envs[j]), orders)
  }

  lemma {:induction false} RowsOfPermutes(names: seq<ColName>, s: seq<Row>, t: seq<Row>)
    requires forall i :: 0 <= i < |s| ==> |s[i]| == |names|
    requires multiset(s) == multiset(t)
    ensures forall i :: 0 <= i < |t| ==> |t[i]| == |names|
    ensures multiset(RowsOf(names, s)) == multiset(RowsOf(names, t))
  {
    forall i | 0 <= i < |t| ensures |t[i]| == |names| {
      assert t[i] in multiset(t);
    }
    var f := (r: Row) => if |r| == |names| then EnvOf(names, r) else map[];
    MapPermutes(f, s, t);
    assert RowsOf(names, s) == Map(f, s) && RowsOf(names, t) == Map(f, t);
  }

  /** One direction per key: all ascending when none is given. */
  function Directions(orders: seq<Order>, n: nat): seq<Order> {
    if orders == [] then seq(n, _ => ASCENDING) else orders
  }

  lemma SortKeyByName(names: seq<ColName>, row: Row, keys: seq<ColName>, cols: seq<nat>)
    requires |row| == |names| && Resolved(cols, names, keys)
    ensures SelectEnv(keys)(EnvOf(names, row)) == SortKey(row, cols)
  {
    forall i | 0 <= i < |keys| ensures Get(EnvOf(names, row), keys[i]) == row[cols[i]] {
      assert keys[i] in names;
    }
  }

  /** Sorting rows by position sorts them by name. */
  lemma SortedByName(names: seq<ColName>, rows: seq<Row>, keys: seq<ColName>, cols: seq<nat>, orders: seq<Order>)
    requires forall i :: 0 <= i < |rows| ==> |rows[i]| == |names|
    requires Resolved(cols, names, keys) && |orders| == |keys|
    ensures var sorted := Sort(rows, RowOrder(cols, orders));
            && (forall i :: 0 <= i < |sorted| ==> |sorted[i]| == |names|)
            && multiset(RowsOf(names, sorted)) == multiset(RowsOf(names, rows))
            && SortedBy(RowsOf(names, sorted), keys, orders)
  {
    var le := RowOrder(cols, orders);
    var sorted := Sort(rows, le);
    RowOrderTotal(cols, orders);
    SortSorts(rows, le);
    RowsOfPermutes(names, rows, sorted);
    var envs := RowsOf(names, sorted);
    forall i | 0 <= i < |sorted| ensures SelectEnv(keys)(envs[i]) == SortKey(sorted[i], cols) {
      SortKeyByName(names, sorted[i], keys, cols);
    }
    forall i, j | 0 <= i < j < |envs| ensures InOrder(SelectEnv(keys)(envs[i]), SelectEnv(keys)(envs[j]), orders) {
      assert le(sorted[i], sorted[j]);
      KeyLeMeans(SelectEnv(keys)(envs[i]), SelectEnv(keys)(envs[j]), orders);
    }
  }

  /** Fails exactly when a key is missing or, with rows to sort, when there is no key or another number of
      orders; otherwise the same rows, sorted on the keys. Rows that compare equal may come in any order. */
  method ApplyOrderBy(table: TableWithNames, sortKeys: seq<ColName>, orders: seq<Order>)
    returns (r: Result<TableWithNames>)
    requires table.Valid()
    ensures r.Ok? <==> && Elements(sortKeys) <= Elements(table.colNames)
                       && (table.tbl.rows == []
                           || (sortKeys != [] && (orders == [] || |orders| == |sortKeys|)))
    ensures r.Ok? ==> fresh(r.value) && r.value.Valid() && r.value.colNames == table.colNames
    ensures r.Ok? ==> multiset(r.value.Envs()) == multiset(table.Envs())
    ensures r.Ok? ==> SortedBy(r.value.Envs(), sortKeys,
                               if orders == [] then seq(|sortKeys|, _ => ASCENDING) else orders)
  {
    var cols :- table.Indexes(sortKeys);
    if table.tbl.rows != [] {
      if sortKeys == [] {
        return Err(NoKeys);
      }
      if orders != [] && |orders| != |sortKeys| {
        return Err(OrderCountMismatch);
      }
    }
    var directions := Directions(orders, |sortKeys|);
    var sorted := Sort(table.tbl.rows, RowOrder(cols, directions));
    if table.tbl.rows != [] {
      SortedByName(table.colNames, table.tbl.rows, sortKeys, cols, directions);
    }
    var out := new TableWithNames(Table(table.tbl.width, sorted), table.colNames);
    return Ok(out);
  }
}
