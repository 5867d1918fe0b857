/** What the rows of a query's answer are, written out: one row per group, with the sum of one value over
    the combinations of the group. */
module Answers {
  import opened GroupBy
  import opened Grouping
  import opened NullRows
  import opened Queries
  import opened Relational
  import opened RevenueColumn
  import opened Schema
  import opened Sequences
  import opened Tables
  import opened Values

  /** The sum of the numbers, or null when there are none. */
  function SumOrNull(s: seq<Value>): Value {
    if Numbers(s) == [] then Null else Num(Sum(Numbers(s)))
  }

  function SameAs(keyOf: Env -> Env, e: Env): Env -> bool {
    other => keyOf(other) == keyOf(e)
  }

  /** The row of the group of one combination: its key, and the sum of the values under `name`. */
  function SumRow(rows: seq<Env>, keyOf: Env -> Env, value: Env -> Value, name: ColName, e: Env): Env {
    keyOf(e)[name := SumOrNull(Map(value, Filter(SameAs(keyOf, e), rows)))]
  }

  /** `keyOf` and `value` are what the query groups by and what it sums. */
  ghost predicate Computes(q: Query, rows: seq<Env>, keyOf: Env -> Env, value: Env -> Value, c: ColName) {
    && (forall e, other :: e in rows && other in rows ==> e.Keys == other.Keys)
    && forall e :: e in rows ==> keyOf(e) == KeyOf(q, e) && value(e) == Get(Extend(e, q.compute), c)
  }

  lemma {:induction false} MapTwice(f: Env -> Value, ext: Env -> Env, g: Env -> Value, s: seq<Env>)
    requires forall e :: e in s ==> f(ext(e)) == g(e)
    ensures Map(f, Map(ext, s)) == Map(g, s)
  {
  }

  lemma GroupedValues(q: Query, rows: seq<Env>, keyOf: Env -> Env, value: Env -> Value, c: ColName, e: Env)
    requires Computes(q, rows, keyOf, value, c) && e in rows
    ensures GroupValues(Map(Computer(q.compute), rows), KeyOf(q, e), c) == Map(value, Filter(SameAs(keyOf, e), rows))
  {
    var ext, members := Computer(q.compute), Filter(SameAs(keyOf, e), rows);
    forall other | other in rows ensures InGroup(KeyOf(q, e))(ext(other)) == SameAs(keyOf, e)(other) {
      MembersAgree(q, rows, keyOf, value, c, e, other);
    }
    FilterAfterMap(ext, InGroup(KeyOf(q, e)), SameAs(keyOf, e), rows);
    forall other | other in members ensures Getter(c)(ext(other)) == value(other) {
    }
    MapTwice(Getter(c), ext, value, members);
  }

  lemma MembersAgree(q: Query, rows: seq<Env>, keyOf: Env -> Env, value: Env -> Value, c: ColName, e: Env, other: Env)
    requires Computes(q, rows, keyOf, value, c) && e in rows && other in rows
    ensures InGroup(KeyOf(q, e))(Computer(q.compute)(other)) == SameAs(keyOf, e)(other)
  {
    SameKey(q, e, other);
  }

  lemma OneRequest(rows: seq<Env>, key: Env, c: ColName, name: ColName)
    ensures GroupRow(rows, key, [Request(c, SUM, name)]) == key[name := SumOrNull(GroupValues(rows, key, c))]
  {
    var requests := [Request(c, SUM, name)];
    assert requests[..0] == [];
    assert GroupRow(rows, key, requests[..0]) == key;
    SumAndMean(GroupValues(rows, key, c));
  }

  lemma RowOfCombination(q: Query, rows: seq<Env>, keyOf: Env -> Env, value: Env -> Value, c: ColName, name: ColName,
                         e: Env)
    requires q.requests == [Request(c, SUM, name)] && Computes(q, rows, keyOf, value, c) && e in rows
    ensures GroupRow(Map(Computer(q.compute), rows), KeyOf(q, e), q.requests) == SumRow(rows, keyOf, value, name, e)
  {
    GroupedValues(q, rows, keyOf, value, c, e);
    OneRequest(Map(Computer(q.compute), rows), KeyOf(q, e), c, name);
  }

  lemma GroupMember(q: Query, rows: seq<Env>, dropNullKeys: bool, r: Env)
    ensures r in Groups(Map(Computer(q.compute), rows), q.keys, q.requests, dropNullKeys)
       <==> exists e :: e in rows && (dropNullKeys ==> NullFree(KeyOf(q, e)))
              && r == GroupRow(Map(Computer(q.compute), rows), KeyOf(q, e), q.requests)
  {
    var whole := Map(Computer(q.compute), rows);
    if r in Groups(whole, q.keys, q.requests, dropNullKeys) {
      var x :| x in whole && (dropNullKeys ==> NullFree(Restrict(x, q.keys)))
            && r == GroupRow(whole, Restrict(x, q.keys), q.requests);
      var i :| 0 <= i < |rows| && whole[i] == x;
      assert rows[i] in rows;
    }
    if e :| e in rows && (dropNullKeys ==> NullFree(KeyOf(q, e))) && r == GroupRow(whole, KeyOf(q, e), q.requests) {
      var i :| 0 <= i < |rows| && rows[i] == e;
      assert whole[i] in whole;
    }
  }

  /** The groups of a query that sums one value: a row for every combination, the same one for all
      combinations of a group, and with the program's policy none for a key with a null. */
  lemma SumGroups(q: Query, rows: seq<Env>, keyOf: Env -> Env, value: Env -> Value, c: ColName, name: ColName,
                  dropNullKeys: bool, r: Env)
    requires q.requests == [Request(c, SUM, name)] && Computes(q, rows, keyOf, value, c)
    ensures r in Groups(Map(Computer(q.compute), rows), q.keys, q.requests, dropNullKeys)
       <==> exists e :: e in rows && (dropNullKeys ==> NullFree(keyOf(e))) && r == SumRow(rows, keyOf, value, name, e)
  {
    GroupMember(q, rows, dropNullKeys, r);
    forall e | e in rows
      ensures GroupRow(Map(Computer(q.compute), rows), KeyOf(q, e), q.requests) == SumRow(rows, keyOf, value, name, e)
    {
      RowOfCombination(q, rows, keyOf, value, c, name, e);
    }
  }

  /** One of the groups: the row of a combination whose key has no null. */
  ghost predicate IsSum(r: Env, rows: seq<Env>, keyOf: Env -> Env, value: Env -> Value, name: ColName) {
    exists e :: e in rows && NullFree(keyOf(e)) && r == SumRow(rows, keyOf, value, name, e)
  }

  /** The program's groups, with its conditions, its key and its value written out. */
  lemma DeliveredSums(q: Query, test: Env -> bool, passes: Env -> bool, keyOf: Env -> Env, value: Env -> Value,
                      c: ColName, name: ColName, db: Database, r: Env)
    requires WellFormed(db) && Distinct(q.from) && q.requests == [Request(c, SUM, name)]
    requires forall e: Env :: test(e) == passes(e)
    requires forall e: Env :: e.Keys == ColumnsOf(q.from) ==>
               keyOf(e) == KeyOf(q, e) && value(e) == Get(Extend(e, q.compute), c)
    ensures r in Delivered(q, test, db) <==> IsSum(r, Filter(passes, Cross(q.from, db)), keyOf, value, name)
  {
    var rows := Filter(passes, Cross(q.from, db));
    FilterSame(test, passes, Cross(q.from, db));
    CrossKeyed(q.from, db);
    assert Computes(q, rows, keyOf, value, c);
    SumGroups(q, rows, keyOf, value, c, name, true, r);
  }

  lemma SumCells(rows: seq<Env>, keyOf: Env -> Env, value: Env -> Value, name: ColName, envs: seq<Env>)
    requires forall r :: r in envs ==> IsSum(r, rows, keyOf, value, name)
    ensures forall r :: r in envs ==> Get(r, name).Null? || Get(r, name).Num?
  {
  }

  /** The cells of a row under some of its names. */
  function Cells(e: Env, cols: set<ColName>): Env {
    map c | c in cols :: Get(e, c)
  }

  lemma StoredKey(q: Query, e: Env)
    requires q.keys <= e.Keys && q.keys !! Computed(q.compute)
    ensures KeyOf(q, e) == Cells(e, q.keys)
  {
    ExtendKeys(e, q.compute);
    forall c | c in q.keys ensures Extend(e, q.compute)[c] == e[c] {
      ExtendOther(e, q.compute, c);
    }
  }

  // ----- descending sums -----

  /** Numbers from the largest to the smallest, and then nulls. */
  ghost predicate Falls(values: seq<Value>) {
    forall i, j :: 0 <= i < j < |values| ==>
      values[j].Null? || (values[i].Num? && values[j].Num? && values[i].num >= values[j].num)
  }

  /** What it means to be sorted on one column of sums, in descending order. */
  lemma SortedFalls(envs: seq<Env>, c: ColName)
    requires SortedBy(envs, [c], [DESCENDING])
    requires forall e :: e in envs ==> Get(e, c).Null? || Get(e, c).Num?
    ensures Falls(Map(Getter(c), envs))
  {
    var values := Map(Getter(c), envs);
    forall i, j | 0 <= i < j < |values|
      ensures values[j].Null? || (values[i].Num? && values[j].Num? && values[i].num >= values[j].num)
    {
      assert envs[i] in envs && envs[j] in envs;
      var a, b := SelectEnv([c])(envs[i]), SelectEnv([c])(envs[j]);
      assert a[0] == values[i] && b[0] == values[j];
      assert InOrder(a, b, [DESCENDING]);
      if a != b {
        var k: nat :| Precedes(a, b, [DESCENDING], k);
        assert k == 0;
      }
    }
  }

  // ----- dates and prices -----

  /** The order is of a day from the first date on and before the second. */
  predicate Dated(e: Env, from: int, to: int) {
    Get(e, o_orderdate).Day? && from <= Get(e, o_orderdate).day < to
  }

  /** The price reduced by the discount, where both are numbers. */
  function Pay(): Env -> Value {
    e => if Get(e, l_extendedprice).Num? && Get(e, l_discount).Num?
         then Num(Get(e, l_extendedprice).num * (1.0 - Get(e, l_discount).num)) else Null
  }

  lemma PayIsRevenue(e: Env)
    ensures Pay()(e) == Get(Extend(e, [(revenue, REVENUE)]), revenue)
  {
    ExtendOne(e, revenue, REVENUE);
    RevenueOf(e);
  }

  lemma DatedMeans(e: Env, from: int, to: int)
    ensures Dated(e, from, to) <==> && Keeps(Bin(GREATER_EQUAL, Col(o_orderdate), Lit(Day(from))), e)
                                    && Keeps(Bin(LESS, Col(o_orderdate), Lit(Day(to))), e)
  {
    assert Eval(Col(o_orderdate), e) == Get(e, o_orderdate);
    assert Eval(Lit(Day(from)), e) == Day(from) && Eval(Lit(Day(to)), e) == Day(to);
  }

  lemma NamedMeans(e: Env, c: ColName, name: string)
    ensures Keeps(Bin(EQUAL, Col(c), Lit(Text(name))), e) <==> Get(e, c) == Text(name)
  {
    assert Eval(Col(c), e) == Get(e, c) && Eval(Lit(Text(name)), e) == Text(name);
  }
}
