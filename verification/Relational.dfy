/** What a query means: rows as assignments of values to column names, SQL's cross product and
    selection, and physical plans of scans and equi-joins. The main result is that a plan delivers
    the rows of the SQL text whenever its conditions amount to the WHERE clause. */
module Relational {
  import opened Calendar
  import opened Schema
  import opened Sequences
  import opened Values

  /** A row, by column name. */
  type Env = map<ColName, Value>

  /** The stored tables. */
  type Database = map<TableId, seq<Env>>

  function Get(e: Env, c: ColName): Value {
    if c in e then e[c] else Null
  }

  function Restrict(e: Env, cols: set<ColName>): (r: Env)
    ensures r.Keys == e.Keys * cols
  {
    map c | c in e && c in cols :: e[c]
  }

  ghost predicate AllKeyed(rows: seq<Env>, cols: set<ColName>) {
    forall e :: e in rows ==> e.Keys == cols
  }

  /** Every table of the database holds rows over exactly its own columns. */
  ghost predicate WellFormed(db: Database) {
    && (forall t: TableId :: t in db)
    && (forall t :: t in db ==> AllKeyed(db[t], Columns(t)))
  }

  // ----- expressions over named columns -----

  datatype Expr =
    | Col(c: ColName)
    | Lit(v: Value)
    | Bin(op: Operator, l: Expr, r: Expr)
    | Like(l: Expr, word: string)
    | Year(l: Expr)

  function Eval(x: Expr, e: Env): Value {
    match x
    case Col(c) => Get(e, c)
    case Lit(v) => v
    case Bin(op, l, r) => Apply(op, Eval(l, e), Eval(r, e))
    case Like(l, word) =>
      var s := Eval(l, e);
      if s.Text? then Bool(ContainsWord(s.text, word)) else Null
    case Year(l) =>
      var d := Eval(l, e);
      if d.Day? then Num(YearOfDay(d.day) as real) else Null
  }

  function Mentions(x: Expr): set<ColName> {
    match x
    case Col(c) => {c}
    case Lit(_) => {}
    case Bin(_, l, r) => Mentions(l) + Mentions(r)
    case Like(l, _) => Mentions(l)
    case Year(l) => Mentions(l)
  }

  /** A row is retained when the predicate is valid and true. */
  predicate Keeps(x: Expr, e: Env) {
    Eval(x, e) == Bool(true)
  }

  function Selector(x: Expr): Env -> bool {
    e => Keeps(x, e)
  }

  function Projector(cols: set<ColName>): Env -> Env {
    e => Restrict(e, cols)
  }

  lemma {:induction false} EvalLocal(x: Expr, e: Env, cols: set<ColName>)
    requires Mentions(x) <= cols
    ensures Eval(x, Restrict(e, cols)) == Eval(x, e)
  {
    match x
    case Col(_) =>
    case Lit(_) =>
    case Bin(_, l, r) => EvalLocal(l, e, cols); EvalLocal(r, e, cols);
    case Like(l, _) => EvalLocal(l, e, cols);
    case Year(l) => EvalLocal(l, e, cols);
  }

  // ----- joins -----

  /** Join keys agree; with `cudf::null_equality::EQUAL`, two nulls agree. */
  predicate Matches(on: seq<(ColName, ColName)>, e: Env) {
    forall i :: 0 <= i < |on| ==> Get(e, on[i].0) == Get(e, on[i].1)
  }

  function JoinOne(a: Env, right: seq<Env>, on: seq<(ColName, ColName)>): seq<Env> {
    if right == [] then []
    else (if Matches(on, a + right[0]) then [a + right[0]] else []) + JoinOne(a, right[1..], on)
  }

  /** Every pair of rows that agrees on the keys; the cross product when there are no keys. */
  function JoinRows(left: seq<Env>, right: seq<Env>, on: seq<(ColName, ColName)>): seq<Env> {
    if left == [] then [] else JoinOne(left[0], right, on) + JoinRows(left[1..], right, on)
  }

  lemma UnionSplits(a: Env, b: Env, kl: set<ColName>, kr: set<ColName>, e: Env)
    requires a.Keys == kl && b.Keys == kr && kl !! kr && e.Keys == kl + kr
    ensures a + b == e <==> a == Restrict(e, kl) && b == Restrict(e, kr)
  {
    if a + b == e {
      assert Restrict(a + b, kl) == a && Restrict(a + b, kr) == b;
    }
    if a == Restrict(e, kl) && b == Restrict(e, kr) {
      assert a + b == e;
    }
  }

  lemma {:induction false} JoinOneKeyed(a: Env, right: seq<Env>, on: seq<(ColName, ColName)>,
                                        kl: set<ColName>, kr: set<ColName>)
    requires a.Keys == kl && AllKeyed(right, kr)
    ensures AllKeyed(JoinOne(a, right, on), kl + kr)
  {
    if right != [] {
      assert right[0] in right;
      JoinOneKeyed(a, right[1..], on, kl, kr);
    }
  }

  lemma {:induction false} JoinKeyed(left: seq<Env>, right: seq<Env>, on: seq<(ColName, ColName)>,
                                     kl: set<ColName>, kr: set<ColName>)
    requires AllKeyed(left, kl) && AllKeyed(right, kr)
    ensures AllKeyed(JoinRows(left, right, on), kl + kr)
  {
    if left != [] {
      assert left[0] in left;
      JoinOneKeyed(left[0], right, on, kl, kr);
      JoinKeyed(left[1..], right, on, kl, kr);
    }
  }

  lemma HeadCount<T>(s: seq<T>, x: T)
    requires s != []
    ensures multiset(s)[x] == (if s[0] == x then 1 else 0) + multiset(s[1..])[x]
  {
    assert s == [s[0]] + s[1..];
  }

  lemma JoinOneHead(a: Env, right: seq<Env>, on: seq<(ColName, ColName)>, e: Env)
    requires right != []
    ensures multiset(JoinOne(a, right, on))[e]
         == (if a + right[0] == e && Matches(on, e) then 1 else 0) + multiset(JoinOne(a, right[1..], on))[e]
  {
    var here := if Matches(on, a + right[0]) then [a + right[0]] else [];
    assert JoinOne(a, right, on) == here + JoinOne(a, right[1..], on);
  }

  lemma {:induction false} JoinOneCount(a: Env, right: seq<Env>, on: seq<(ColName, ColName)>,
                                        kl: set<ColName>, kr: set<ColName>, e: Env)
    requires a.Keys == kl && AllKeyed(right, kr) && kl !! kr && e.Keys == kl + kr
    ensures multiset(JoinOne(a, right, on))[e]
         == if a == Restrict(e, kl) && Matches(on, e) then multiset(right)[Restrict(e, kr)] else 0
  {
    if right != [] {
      assert right[0] in right;
      UnionSplits(a, right[0], kl, kr, e);
      HeadCount(right, Restrict(e, kr));
      JoinOneCount(a, right[1..], on, kl, kr, e);
      JoinOneHead(a, right, on, e);
    }
  }

  lemma MulSwap(x: int, y: int, z: int)
    ensures x * (y * z) == (x * y) * z == y * (x * z)
  {
  }

  lemma JoinHeadCount(left: seq<Env>, right: seq<Env>, on: seq<(ColName, ColName)>,
                      kl: set<ColName>, kr: set<ColName>, e: Env)
    requires left != [] && AllKeyed(left, kl) && AllKeyed(right, kr) && kl !! kr && e.Keys == kl + kr
    ensures multiset(JoinRows(left, right, on))[e]
         == (if left[0] == Restrict(e, kl) && Matches(on, e) then multiset(right)[Restrict(e, kr)] else 0)
            + multiset(JoinRows(left[1..], right, on))[e]
  {
    assert left[0] in left;
    JoinOneCount(left[0], right, on, kl, kr, e);
  }

  /** The arithmetic of one more row on the left. */
  lemma OneMore(here: bool, matches: bool, later: int, r: int)
    ensures (if here && matches then r else 0) + (if matches then later * r else 0)
         == if matches then ((if here then 1 else 0) + later) * r else 0
  {
  }

  /** How often a row appears in a join: the product of how often its two halves appear. */
  lemma {:induction false} JoinCount(left: seq<Env>, right: seq<Env>, on: seq<(ColName, ColName)>,
                                     kl: set<ColName>, kr: set<ColName>, e: Env)
    requires AllKeyed(left, kl) && AllKeyed(right, kr) && kl !! kr && e.Keys == kl + kr
    ensures multiset(JoinRows(left, right, on))[e]
         == if Matches(on, e) then multiset(left)[Restrict(e, kl)] * multiset(right)[Restrict(e, kr)] else 0
  {
    if left == [] {
      assert multiset(left)[Restrict(e, kl)] == 0;
    } else {
      JoinHeadCount(left, right, on, kl, kr, e);
      JoinCount(left[1..], right, on, kl, kr, e);
      HeadCount(left, Restrict(e, kl));
      OneMore(left[0] == Restrict(e, kl), Matches(on, e), multiset(left[1..])[Restrict(e, kl)],
              multiset(right)[Restrict(e, kr)]);
    }
  }

  lemma KeyedPermutes(s: seq<Env>, t: seq<Env>, cols: set<ColName>)
    requires AllKeyed(s, cols) && multiset(s) == multiset(t)
    ensures AllKeyed(t, cols)
  {
    forall e | e in t ensures e.Keys == cols {
      assert e in multiset(t);
    }
  }

  /** The order of the inputs of a join, like the order of the index pairs that
      `cudf::inner_join` returns, affects only the order of its output. */
  lemma JoinPermutes(left: seq<Env>, right: seq<Env>, left': seq<Env>, right': seq<Env>,
                     on: seq<(ColName, ColName)>, kl: set<ColName>, kr: set<ColName>)
    requires AllKeyed(left, kl) && AllKeyed(right, kr) && kl !! kr
    requires multiset(left) == multiset(left') && multiset(right) == multiset(right')
    ensures multiset(JoinRows(left, right, on)) == multiset(JoinRows(left', right', on))
  {
    KeyedPermutes(left, left', kl);
    KeyedPermutes(right, right', kr);
    JoinKeyed(left, right, on, kl, kr);
    JoinKeyed(left', right', on, kl, kr);
    var j, j' := JoinRows(left, right, on), JoinRows(left', right', on);
    forall e: Env ensures multiset(j)[e] == multiset(j')[e] {
      if e.Keys == kl + kr {
        JoinCount(left, right, on, kl, kr, e);
        JoinCount(left', right', on, kl, kr, e);
      } else {
        assert e !in j && e !in j';
      }
    }
  }

  // ----- plans -----

  /** A physical plan. `Scan` is read_parquet with its column projection and pushed-down filter. */
  datatype Plan =
    | Scan(table: TableId, cols: set<ColName>, filter: Expr)
    | Join(l: Plan, r: Plan, on: seq<(ColName, ColName)>)

  const NO_FILTER := Lit(Bool(true))

  function Leaves(p: Plan): seq<TableId> {
    match p case Scan(t, _, _) => [t] case Join(l, r, _) => Leaves(l) + Leaves(r)
  }

  /** All columns of the tables a plan reads. */
  function AllColumns(p: Plan): set<ColName> {
    match p case Scan(t, _, _) => Columns(t) case Join(l, r, _) => AllColumns(l) + AllColumns(r)
  }

  /** The columns a plan delivers. */
  function OutColumns(p: Plan): set<ColName> {
    match p case Scan(_, cols, _) => cols case Join(l, r, _) => OutColumns(l) + OutColumns(r)
  }

  /** Filters and join keys mention only columns that are delivered, and no table is read twice. */
  predicate Resolves(p: Plan) {
    match p
    case Scan(t, cols, filter) => cols <= Columns(t) && Mentions(filter) <= cols
    case Join(l, r, on) =>
      && Resolves(l) && Resolves(r) && AllColumns(l) !! AllColumns(r)
      && forall i :: 0 <= i < |on| ==> on[i].0 in OutColumns(l) && on[i].1 in OutColumns(r)
  }

  /** The rows of a plan that reads whole tables. */
  function Rows(p: Plan, db: Database): seq<Env>
    requires forall t: TableId :: t in db
  {
    match p
    case Scan(t, _, filter) => Filter(Selector(filter), db[t])
    case Join(l, r, on) => JoinRows(Rows(l, db), Rows(r, db), on)
  }

  /** The rows a plan delivers when every scan drops the columns it does not list. */
  function ProjectedRows(p: Plan, db: Database): seq<Env>
    requires forall t: TableId :: t in db
  {
    match p
    case Scan(t, cols, filter) => Map(Projector(cols), Filter(Selector(filter), db[t]))
    case Join(l, r, on) => JoinRows(ProjectedRows(l, db), ProjectedRows(r, db), on)
  }

  /** The conjunction of everything a plan tests. */
  predicate Conditions(p: Plan, e: Env) {
    match p
    case Scan(_, _, filter) => Keeps(filter, e)
    case Join(l, r, on) => Conditions(l, e) && Conditions(r, e) && Matches(on, e)
  }

  /** How many ways there are to assemble `e` from one stored row of each table. */
  function Ways(e: Env, tables: seq<TableId>, db: Database): nat
    requires forall t: TableId :: t in db
  {
    if tables == [] then 1
    else multiset(db[tables[0]])[Restrict(e, Columns(tables[0]))] * Ways(e, tables[1..], db)
  }

  function ColumnsOf(tables: seq<TableId>): set<ColName> {
    set t, c | t in tables && c in Columns(t) :: c
  }

  lemma {:induction false} LeavesColumns(p: Plan)
    ensures AllColumns(p) == ColumnsOf(Leaves(p))
  {
    match p
    case Scan(t, _, _) =>
    case Join(l, r, _) => LeavesColumns(l); LeavesColumns(r);
  }

  lemma {:induction false} OutColumnsStored(p: Plan)
    requires Resolves(p)
    ensures OutColumns(p) <= AllColumns(p)
  {
    match p
    case Scan(_, _, _) =>
    case Join(l, r, _) => OutColumnsStored(l); OutColumnsStored(r);
  }

  lemma {:induction false} ConditionsLocal(p: Plan, e: Env, cols: set<ColName>)
    requires Resolves(p) && OutColumns(p) <= cols
    ensures Conditions(p, Restrict(e, cols)) == Conditions(p, e)
  {
    match p
    case Scan(_, _, filter) => EvalLocal(filter, e, cols);
    case Join(l, r, on) =>
      ConditionsLocal(l, e, cols);
      ConditionsLocal(r, e, cols);
      forall i | 0 <= i < |on| ensures Get(Restrict(e, cols), on[i].0) == Get(e, on[i].0)
                                    && Get(Restrict(e, cols), on[i].1) == Get(e, on[i].1) {
      }
  }

  lemma {:induction false} WaysLocal(e: Env, tables: seq<TableId>, db: Database, cols: set<ColName>)
    requires forall t: TableId :: t in db
    requires ColumnsOf(tables) <= cols
    ensures Ways(Restrict(e, cols), tables, db) == Ways(e, tables, db)
  {
    if tables != [] {
      var t := tables[0];
      assert t in tables;
      assert Columns(t) <= cols;
      assert Restrict(Restrict(e, cols), Columns(t)) == Restrict(e, Columns(t));
      WaysLocal(e, tables[1..], db, cols);
    }
  }

  lemma {:induction false} WaysConcat(e: Env, s: seq<TableId>, t: seq<TableId>, db: Database)
    requires forall x: TableId :: x in db
    ensures Ways(e, s + t, db) == Ways(e, s, db) * Ways(e, t, db)
  {
    if s == [] {
      assert s + t == t;
    } else {
      assert (s + t)[1..] == s[1..] + t;
      WaysConcat(e, s[1..], t, db);
      MulSwap(multiset(db[s[0]])[Restrict(e, Columns(s[0]))], Ways(e, s[1..], db), Ways(e, t, db));
    }
  }

  lemma {:induction false} WaysPermute(e: Env, s: seq<TableId>, t: seq<TableId>, db: Database)
    requires forall x: TableId :: x in db
    requires multiset(s) == multiset(t)
    ensures Ways(e, s, db) == Ways(e, t, db)
    decreases |s|
  {
    if s == [] {
      assert |t| == |multiset(t)| == 0;
    } else {
      var j := RemoveHead(s, t);
      WaysPermute(e, s[1..], t[..j] + t[j + 1..], db);
      WaysConcat(e, t[..j], t[j + 1..], db);
      WaysConcat(e, t[..j], [t[j]] + t[j + 1..], db);
      assert t == t[..j] + ([t[j]] + t[j + 1..]);
      MulSwap(multiset(db[s[0]])[Restrict(e, Columns(s[0]))], Ways(e, t[..j], db), Ways(e, t[j + 1..], db));
    }
  }

  lemma {:induction false} RowsKeyed(p: Plan, db: Database)
    requires WellFormed(db) && Resolves(p)
    ensures AllKeyed(Rows(p, db), AllColumns(p))
  {
    match p
    case Scan(_, _, _) =>
    case Join(l, r, on) =>
      RowsKeyed(l, db);
      RowsKeyed(r, db);
      JoinKeyed(Rows(l, db), Rows(r, db), on, AllColumns(l), AllColumns(r));
  }

  /** What a plan tests and assembles on one side of a join depends on that side's columns. */
  lemma SideLocal(p: Plan, db: Database, e: Env)
    requires WellFormed(db) && Resolves(p)
    ensures Conditions(p, Restrict(e, AllColumns(p))) == Conditions(p, e)
    ensures Ways(Restrict(e, AllColumns(p)), Leaves(p), db) == Ways(e, Leaves(p), db)
  {
    OutColumnsStored(p);
    ConditionsLocal(p, e, AllColumns(p));
    LeavesColumns(p);
    WaysLocal(e, Leaves(p), db, AllColumns(p));
  }

  lemma WaysOne(e: Env, t: TableId, db: Database)
    requires WellFormed(db) && e.Keys == Columns(t)
    ensures Ways(e, [t], db) == multiset(db[t])[e]
  {
    assert Restrict(e, Columns(t)) == e;
    assert Ways(e, [t][1..], db) == 1;
  }

  /** The rows of a plan, with multiplicities: a row appears as often as it can be assembled from
      stored rows, provided it meets every condition of the plan, wherever the plan tests it. */
  lemma {:induction false} PlanCount(p: Plan, db: Database, e: Env)
    requires WellFormed(db) && Resolves(p) && e.Keys == AllColumns(p)
    ensures multiset(Rows(p, db))[e] == if Conditions(p, e) then Ways(e, Leaves(p), db) else 0
    decreases p, 1
  {
    match p
    case Scan(t, _, filter) =>
      FilterCount(Selector(filter), db[t], e);
      WaysOne(e, t, db);
    case Join(l, r, on) =>
      PlanCountJoin(l, r, on, db, e);
      WaysConcat(e, Leaves(l), Leaves(r), db);
  }

  lemma {:induction false} SideCount(p: Plan, db: Database, e: Env)
    requires WellFormed(db) && Resolves(p) && AllColumns(p) <= e.Keys
    ensures multiset(Rows(p, db))[Restrict(e, AllColumns(p))] == if Conditions(p, e) then Ways(e, Leaves(p), db) else 0
    decreases p, 2
  {
    PlanCount(p, db, Restrict(e, AllColumns(p)));
    SideLocal(p, db, e);
  }

  lemma {:induction false} PlanCountJoin(l: Plan, r: Plan, on: seq<(ColName, ColName)>, db: Database, e: Env)
    requires WellFormed(db) && Resolves(Join(l, r, on)) && e.Keys == AllColumns(l) + AllColumns(r)
    ensures multiset(JoinRows(Rows(l, db), Rows(r, db), on))[e]
         == if Conditions(l, e) && Conditions(r, e) && Matches(on, e)
            then Ways(e, Leaves(l), db) * Ways(e, Leaves(r), db) else 0
    decreases Join(l, r, on), 0
  {
    RowsKeyed(l, db);
    RowsKeyed(r, db);
    SideCount(l, db, e);
    SideCount(r, db, e);
    JoinCount(Rows(l, db), Rows(r, db), on, AllColumns(l), AllColumns(r), e);
  }

  // ----- SQL -----

  /** FROM: the cross product of the listed tables. */
  function Cross(from: seq<TableId>, db: Database): seq<Env>
    requires forall t: TableId :: t in db
  {
    if from == [] then [map[]] else JoinRows(db[from[0]], Cross(from[1..], db), [])
  }

  /** WHERE: every conjunct is true. */
  predicate Where(conjuncts: seq<Expr>, e: Env) {
    forall i :: 0 <= i < |conjuncts| ==> Keeps(conjuncts[i], e)
  }

  function WhereSelector(conjuncts: seq<Expr>): Env -> bool {
    e => Where(conjuncts, e)
  }

  /** FROM and WHERE, read literally. */
  function SqlRows(from: seq<TableId>, conjuncts: seq<Expr>, db: Database): seq<Env>
    requires forall t: TableId :: t in db
  {
    Filter(WhereSelector(conjuncts), Cross(from, db))
  }

  lemma ColumnsOfHead(tables: seq<TableId>)
    requires tables != [] && Distinct(tables)
    ensures ColumnsOf(tables) == Columns(tables[0]) + ColumnsOf(tables[1..])
    ensures Columns(tables[0]) !! ColumnsOf(tables[1..])
  {
    assert tables == [tables[0]] + tables[1..];
  }

  lemma {:induction false} CrossKeyed(from: seq<TableId>, db: Database)
    requires WellFormed(db) && Distinct(from)
    ensures AllKeyed(Cross(from, db), ColumnsOf(from))
  {
    if from != [] {
      ColumnsOfHead(from);
      CrossKeyed(from[1..], db);
      JoinKeyed(db[from[0]], Cross(from[1..], db), [], Columns(from[0]), ColumnsOf(from[1..]));
    }
  }

  lemma {:induction false} CrossCount(from: seq<TableId>, db: Database, e: Env)
    requires WellFormed(db) && Distinct(from) && e.Keys == ColumnsOf(from)
    ensures multiset(Cross(from, db))[e] == Ways(e, from, db)
  {
    if from == [] {
      assert e == map[];
    } else {
      var rest := from[1..];
      ColumnsOfHead(from);
      CrossKeyed(rest, db);
      CrossCount(rest, db, Restrict(e, ColumnsOf(rest)));
      JoinCount(db[from[0]], Cross(rest, db), [], Columns(from[0]), ColumnsOf(rest), e);
      WaysLocal(e, rest, db, ColumnsOf(rest));
    }
  }

  /** `e` is made of stored rows. */
  ghost predicate Stored(e: Env, tables: seq<TableId>, db: Database)
    requires forall t: TableId :: t in db
  {
    forall i :: 0 <= i < |tables| ==> Restrict(e, Columns(tables[i])) in db[tables[i]]
  }

  lemma {:induction false} WaysStored(e: Env, tables: seq<TableId>, db: Database)
    requires forall t: TableId :: t in db
    ensures Ways(e, tables, db) > 0 <==> Stored(e, tables, db)
  {
    if tables != [] {
      WaysStored(e, tables[1..], db);
      var m, w := multiset(db[tables[0]])[Restrict(e, Columns(tables[0]))], Ways(e, tables[1..], db);
      assert m * w > 0 <==> m > 0 && w > 0;
      assert forall i :: 0 < i < |tables| ==> tables[i] == tables[1..][i - 1];
      if Stored(e, tables, db) {
        assert Restrict(e, Columns(tables[0])) in db[tables[0]];
      }
    }
  }

  /** The conditions of a plan amount to a test on every combination of stored rows. */
  ghost predicate SameTests(p: Plan, from: seq<TableId>, test: Env -> bool, db: Database)
    requires forall t: TableId :: t in db
  {
    forall e: Env :: e.Keys == ColumnsOf(from) && Stored(e, from, db) ==> (Conditions(p, e) <==> test(e))
  }

  lemma SameColumns(p: Plan, from: seq<TableId>)
    requires multiset(from) == multiset(Leaves(p))
    ensures ColumnsOf(from) == AllColumns(p)
  {
    LeavesColumns(p);
    forall t: TableId ensures t in from <==> t in Leaves(p) {
      assert t in multiset(from) <==> t in multiset(Leaves(p));
    }
  }

  /** How often a combination of rows comes out of a plan, and out of FROM and a test. */
  lemma SelectionCount(p: Plan, from: seq<TableId>, test: Env -> bool, db: Database, e: Env)
    requires WellFormed(db) && Resolves(p)
    requires multiset(from) == multiset(Leaves(p)) && Distinct(from)
    requires e.Keys == ColumnsOf(from)
    ensures multiset(Rows(p, db))[e] == if Conditions(p, e) then Ways(e, from, db) else 0
    ensures multiset(Filter(test, Cross(from, db)))[e] == if test(e) then Ways(e, from, db) else 0
  {
    SameColumns(p, from);
    PlanCount(p, db, e);
    CrossCount(from, db, e);
    WaysPermute(e, from, Leaves(p), db);
    FilterCount(test, Cross(from, db), e);
  }

  lemma SameRowsSameTests(p: Plan, from: seq<TableId>, test: Env -> bool, db: Database)
    requires WellFormed(db) && Resolves(p)
    requires multiset(from) == multiset(Leaves(p)) && Distinct(from)
    requires multiset(Rows(p, db)) == multiset(Filter(test, Cross(from, db)))
    ensures SameTests(p, from, test, db)
  {
    forall e: Env | e.Keys == ColumnsOf(from) && Stored(e, from, db) ensures Conditions(p, e) <==> test(e) {
      SelectionCount(p, from, test, db, e);
      WaysStored(e, from, db);
    }
  }

  lemma OtherColumnsNever(p: Plan, from: seq<TableId>, test: Env -> bool, db: Database, e: Env)
    requires WellFormed(db) && Resolves(p)
    requires multiset(from) == multiset(Leaves(p)) && Distinct(from)
    requires e.Keys != ColumnsOf(from)
    ensures e !in Rows(p, db) && e !in Filter(test, Cross(from, db))
  {
    SameColumns(p, from);
    RowsKeyed(p, db);
    CrossKeyed(from, db);
  }

  lemma SameTestsSameCount(p: Plan, from: seq<TableId>, test: Env -> bool, db: Database, e: Env)
    requires WellFormed(db) && Resolves(p)
    requires multiset(from) == multiset(Leaves(p)) && Distinct(from)
    requires SameTests(p, from, test, db)
    ensures multiset(Rows(p, db))[e] == multiset(Filter(test, Cross(from, db)))[e]
  {
    if e.Keys == ColumnsOf(from) {
      SelectionCount(p, from, test, db, e);
      WaysStored(e, from, db);
    } else {
      OtherColumnsNever(p, from, test, db, e);
    }
  }

  /** A plan in any join order, with filters at any depth, delivers the combinations of FROM that pass a
      test, each as often, exactly when its conditions amount to the test. */
  lemma PlanIsSelection(p: Plan, from: seq<TableId>, test: Env -> bool, db: Database)
    requires WellFormed(db) && Resolves(p)
    requires multiset(from) == multiset(Leaves(p)) && Distinct(from)
    ensures multiset(Rows(p, db)) == multiset(Filter(test, Cross(from, db))) <==> SameTests(p, from, test, db)
  {
    if multiset(Rows(p, db)) == multiset(Filter(test, Cross(from, db))) {
      SameRowsSameTests(p, from, test, db);
    }
    if SameTests(p, from, test, db) {
      forall e: Env ensures multiset(Rows(p, db))[e] == multiset(Filter(test, Cross(from, db)))[e] {
        SameTestsSameCount(p, from, test, db, e);
      }
    }
  }

  /** A plan delivers the rows of the SQL text, each as often, exactly when its conditions amount to the
      WHERE clause. */
  lemma PlanMeetsSql(p: Plan, from: seq<TableId>, conjuncts: seq<Expr>, db: Database)
    requires WellFormed(db) && Resolves(p)
    requires multiset(from) == multiset(Leaves(p)) && Distinct(from)
    ensures multiset(Rows(p, db)) == multiset(SqlRows(from, conjuncts, db))
       <==> SameTests(p, from, WhereSelector(conjuncts), db)
  {
    PlanIsSelection(p, from, WhereSelector(conjuncts), db);
  }

  // ----- projections -----

  lemma RestrictUnion(a: Env, b: Env, ca: set<ColName>, cb: set<ColName>)
    requires a.Keys !! b.Keys && ca <= a.Keys && cb <= b.Keys
    ensures Restrict(a, ca) + Restrict(b, cb) == Restrict(a + b, ca + cb)
  {
  }

  lemma {:induction false} ProjectJoinOne(a: Env, right: seq<Env>, on: seq<(ColName, ColName)>, kl: set<ColName>,
                                          kr: set<ColName>, ca: set<ColName>, cb: set<ColName>)
    requires a.Keys == kl && AllKeyed(right, kr) && kl !! kr && ca <= kl && cb <= kr
    requires forall i :: 0 <= i < |on| ==> on[i].0 in ca && on[i].1 in cb
    ensures JoinOne(Restrict(a, ca), Map(Projector(cb), right), on)
         == Map(Projector(ca + cb), JoinOne(a, right, on))
  {
    if right != [] {
      var b := right[0];
      assert b in right;
      RestrictUnion(a, b, ca, cb);
      assert Matches(on, Restrict(a + b, ca + cb)) == Matches(on, a + b) by {
        forall i | 0 <= i < |on| ensures Get(Restrict(a + b, ca + cb), on[i].0) == Get(a + b, on[i].0)
                                      && Get(Restrict(a + b, ca + cb), on[i].1) == Get(a + b, on[i].1) {
        }
      }
      ProjectJoinOne(a, right[1..], on, kl, kr, ca, cb);
      assert Map(Projector(cb), right)[1..] == Map(Projector(cb), right[1..]);
    }
  }

  lemma {:induction false} ProjectJoin(left: seq<Env>, right: seq<Env>, on: seq<(ColName, ColName)>, kl: set<ColName>,
                                       kr: set<ColName>, ca: set<ColName>, cb: set<ColName>)
    requires AllKeyed(left, kl) && AllKeyed(right, kr) && kl !! kr && ca <= kl && cb <= kr
    requires forall i :: 0 <= i < |on| ==> on[i].0 in ca && on[i].1 in cb
    ensures JoinRows(Map(Projector(ca), left), Map(Projector(cb), right), on)
         == Map(Projector(ca + cb), JoinRows(left, right, on))
  {
    if left != [] {
      assert left[0] in left;
      ProjectJoinOne(left[0], right, on, kl, kr, ca, cb);
      ProjectJoin(left[1..], right, on, kl, kr, ca, cb);
      assert Map(Projector(ca), left)[1..] == Map(Projector(ca), left[1..]);
      MapConcat(Projector(ca + cb), JoinOne(left[0], right, on), JoinRows(left[1..], right, on));
    }
  }

  /** Pushing projections into the scans commutes with all joins of the plan. */
  lemma {:induction false} ProjectionPushdown(p: Plan, db: Database)
    requires WellFormed(db) && Resolves(p)
    ensures ProjectedRows(p, db) == Map(Projector(OutColumns(p)), Rows(p, db))
  {
    match p
    case Scan(_, _, _) =>
    case Join(l, r, on) =>
      ProjectionPushdown(l, db);
      ProjectionPushdown(r, db);
      OutColumnsStored(l);
      OutColumnsStored(r);
      RowsKeyed(l, db);
      RowsKeyed(r, db);
      ProjectJoin(Rows(l, db), Rows(r, db), on, AllColumns(l), AllColumns(r), OutColumns(l), OutColumns(r));
  }
}
